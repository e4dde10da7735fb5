/** `DocumentLoader` of `rag_agent/app/ingestion/document_loader.py`: the
    per-file step (hash-log skip rule, extension dispatch, records with chunk
    ids) and the per-domain incremental update of the chunk list. Files,
    directories and JSON documents are given as values; SHA-256 of a file
    arrives as its `fileHash`. */
module DocumentLoading {
  import opened Common
  import opened Text
  import opened Chunker

  /** What the loader is built with: the `use_hashing` feature flag, SHA-1 as
      a hex digest and NLTK's `sent_tokenize` (`None` when its model is missing). */
  datatype Config = Config(useHashing: bool, sha1Hex: string -> string, sentTokenize: string -> Option<seq<string>>)

  /** A file of a domain directory: `str(file_path)`, `file_path.name`, the
      SHA-256 digest of its bytes, and the text extraction yields (the file's
      contents for text files, `pdf_to_text` for PDFs, `pdf_to_text_ocr` as
      `ocrText`). */
  datatype SourceFile = SourceFile(path: string, name: string, fileHash: string, text: string, ocrText: string)

  /** One element of a `<domain>_chunks.json` list. Entries read back from
      disk may lack `"source"`, hence the option. */
  datatype ChunkRecord = ChunkRecord(text: string, source: Option<string>, domain: string, chunkId: string)

  // ---------- file extension ----------

  /** The position of the last `.` in `s`, or -1. */
  function LastDot(s: string): (r: int)
    ensures -1 <= r < |s| && (r >= 0 ==> s[r] == '.')
    ensures forall k :: r < k < |s| ==> s[k] != '.'
  {
    if s == [] then -1
    else if s[|s| - 1] == '.' then |s| - 1
    else LastDot(s[..|s| - 1])
  }

  /** `PurePath.suffix`: from the last dot on, unless that dot starts or ends the name. */
  function Suffix(name: string): (r: string)
    ensures r == [] || (2 <= |r| <= |name| && r[0] == '.' && r == name[|name| - |r|..])
  {
    var i := LastDot(name);
    if 0 < i < |name| - 1 then name[i..] else []
  }

  function LowerChar(c: char): char
  {
    if 'A' <= c <= 'Z' then (c as int + 32) as char else c
  }

  /** `str.lower()` on the characters that can matter for the extensions
      compared against (ASCII letters). */
  function Lower(s: string): (r: string)
    ensures |r| == |s| && forall k :: 0 <= k < |s| ==> r[k] == LowerChar(s[k])
  {
    seq(|s|, k requires 0 <= k < |s| => LowerChar(s[k]))
  }

  datatype FileKind = Pdf | PlainText | Unsupported

  /** The dispatch on `file_path.suffix.lower()`. */
  function Kind(f: SourceFile): FileKind
  {
    var ext := Lower(Suffix(f.name));
    if ext == ".pdf" then Pdf
    else if ext == ".md" || ext == ".txt" then PlainText
    else Unsupported
  }

  /** The last dot is the one no later character equals. */
  lemma {:induction false} LastDotAt(s: string, i: nat)
    requires i < |s| && s[i] == '.'
    requires forall k :: i < k < |s| ==> s[k] != '.'
    ensures LastDot(s) == i
  {
  }

  /** A name made of a non-empty stem and one extension has that extension
      as its suffix. */
  lemma {:induction false} SuffixOfStem(stem: string, ext: string)
    requires stem != [] && |ext| >= 2 && ext[0] == '.'
    requires forall k :: 1 <= k < |ext| ==> ext[k] != '.'
    ensures Suffix(stem + ext) == ext
  {
    var name := stem + ext;
    LastDotAt(name, |stem|);
    assert name[|stem|..] == ext;
  }

  /** Upper-case extensions are accepted. */
  lemma {:induction false} KindUpperCase()
    ensures Kind(SourceFile("r/d/A.PDF", "A.PDF", "h", "", "")) == Pdf
  {
    SuffixOfStem("A", ".PDF");
    assert "A" + ".PDF" == "A.PDF";
    assert Lower(".PDF") == ".pdf";
  }

  /** A name that only starts with a dot has no extension. */
  lemma {:induction false} KindHiddenFile()
    ensures Kind(SourceFile("r/d/.txt", ".txt", "h", "", "")) == Unsupported
  {
    LastDotAt(".txt", 0);
  }

  /** Only the last suffix counts. */
  lemma {:induction false} KindLastSuffix()
    ensures Kind(SourceFile("r/d/n.txt.gz", "n.txt.gz", "h", "", "")) == Unsupported
  {
    SuffixOfStem("n.txt", ".gz");
    assert "n.txt" + ".gz" == "n.txt.gz";
    assert Lower(".gz") == ".gz";
  }

  /** The text handed to `normalize_text`: a PDF whose extracted text is blank
      after stripping is read again by OCR. */
  function ExtractedText(f: SourceFile): string
  {
    if Kind(f) == Pdf && Strip(f.text) == [] then f.ocrText else f.text
  }

  // ---------- process_document ----------

  /** The records of one document, in chunk order, numbered from 0. */
  function ChunkRecords(sha1Hex: string -> string, domain: string, name: string, chunks: seq<string>): (r: seq<ChunkRecord>)
    ensures |r| == |chunks|
    decreases |chunks|
  {
    if chunks == [] then []
    else
      var n := |chunks| - 1;
      ChunkRecords(sha1Hex, domain, name, chunks[..n]) + [ChunkRecord(chunks[n], Some(name), domain, ChunkId(sha1Hex, domain, chunks[n], n))]
  }

  /** Record `i` holds chunk `i`, the file name, the domain and the id made from index `i`. */
  lemma {:induction false} ChunkRecordsAt(sha1Hex: string -> string, domain: string, name: string, chunks: seq<string>)
    ensures var r := ChunkRecords(sha1Hex, domain, name, chunks);
      forall i :: 0 <= i < |r| ==> r[i] == ChunkRecord(chunks[i], Some(name), domain, ChunkId(sha1Hex, domain, chunks[i], i))
    decreases |chunks|
  {
    if chunks != [] {
      var n := |chunks| - 1;
      var p := chunks[..n];
      ChunkRecordsAt(sha1Hex, domain, name, p);
      var r, q := ChunkRecords(sha1Hex, domain, name, chunks), ChunkRecords(sha1Hex, domain, name, p);
      assert r == q + [ChunkRecord(chunks[n], Some(name), domain, ChunkId(sha1Hex, domain, chunks[n], n))];
      forall i | 0 <= i < |r|
        ensures r[i] == ChunkRecord(chunks[i], Some(name), domain, ChunkId(sha1Hex, domain, chunks[i], i))
      {
        if i < n {
          assert r[i] == q[i];
          assert q[i] == ChunkRecord(p[i], Some(name), domain, ChunkId(sha1Hex, domain, p[i], i));
          assert p[i] == chunks[i];
        } else {
          assert r[i] == ChunkRecord(chunks[n], Some(name), domain, ChunkId(sha1Hex, domain, chunks[n], n));
        }
      }
    }
  }

  /** Hashing is on and the log already maps the path to the current digest. */
  predicate Skips(config: Config, log: map<string, string>, f: SourceFile)
  {
    config.useHashing && f.path in log && log[f.path] == f.fileHash
  }

  /** The chunks `chunk_text` makes of the normalised extracted text. */
  function DocumentChunks(config: Config, f: SourceFile): seq<string>
  {
    Chunks(SafeSentTokenize(Normalize(ExtractedText(f)), config.sentTokenize), ChunkSizeTokens, OverlapTokens)
  }

  datatype DocumentRun = DocumentRun(records: seq<ChunkRecord>, log: map<string, string>)

  /** What `process_document` returns and the processing log it leaves. */
  function ProcessResult(config: Config, log: map<string, string>, f: SourceFile, domain: string): DocumentRun
  {
    if Skips(config, log, f) || Kind(f) == Unsupported then DocumentRun([], log)
    else
      DocumentRun(ChunkRecords(config.sha1Hex, domain, f.name, DocumentChunks(config, f)),
                  if config.useHashing then log[f.path := f.fileHash] else log)
  }

  /** Every record carries its chunk, the file name, the domain and an id
      whose trailing number is its position. */
  lemma {:induction false} ChunkRecordsFields(sha1Hex: string -> string, domain: string, name: string, chunks: seq<string>)
    ensures var r := ChunkRecords(sha1Hex, domain, name, chunks);
      forall i :: 0 <= i < |r| ==>
        && r[i].text == chunks[i]
        && r[i].source == Some(name)
        && r[i].domain == domain
        && ParseNat(TrailingDigits(r[i].chunkId)) == i
  {
    var r := ChunkRecords(sha1Hex, domain, name, chunks);
    ChunkRecordsAt(sha1Hex, domain, name, chunks);
    forall i | 0 <= i < |r| ensures ParseNat(TrailingDigits(r[i].chunkId)) == i {
      assert r[i].chunkId == ChunkId(sha1Hex, domain, chunks[i], i);
    }
  }

  /** The three outcomes of `process_document`: a skip and an unsupported
      extension return nothing and leave the log alone; otherwise the records
      carry the file name, the domain and ids numbered 0..n-1, and the log
      records the digest exactly when hashing is on. */
  lemma {:induction false} ProcessOutcomes(config: Config, log: map<string, string>, f: SourceFile, domain: string)
    ensures var run := ProcessResult(config, log, f, domain);
      && (Skips(config, log, f) || Kind(f) == Unsupported ==> run == DocumentRun([], log))
      && (!Skips(config, log, f) && Kind(f) != Unsupported ==>
            && |run.records| == |DocumentChunks(config, f)|
            && (forall i :: 0 <= i < |run.records| ==>
                  && run.records[i].text == DocumentChunks(config, f)[i]
                  && run.records[i].source == Some(f.name)
                  && run.records[i].domain == domain
                  && ParseNat(TrailingDigits(run.records[i].chunkId)) == i)
            && (config.useHashing ==> run.log == log[f.path := f.fileHash])
            && (!config.useHashing ==> run.log == log))
  {
    if !Skips(config, log, f) && Kind(f) != Unsupported {
      var chunks := DocumentChunks(config, f);
      ChunkRecordsFields(config.sha1Hex, domain, f.name, chunks);
      assert ProcessResult(config, log, f, domain).records == ChunkRecords(config.sha1Hex, domain, f.name, chunks);
    }
  }

  /** No two records of one document share an id. */
  lemma {:induction false} RecordIdsDistinct(config: Config, log: map<string, string>, f: SourceFile, domain: string)
    ensures var rs := ProcessResult(config, log, f, domain).records;
      forall i, j :: 0 <= i < j < |rs| ==> rs[i].chunkId != rs[j].chunkId
  {
    ProcessOutcomes(config, log, f, domain);
  }

  /** A supported file that is not skipped produces records exactly when its
      normalised text yields at least one sentence. */
  lemma {:induction false} RecordsEmptyIff(config: Config, log: map<string, string>, f: SourceFile, domain: string)
    requires !Skips(config, log, f) && Kind(f) != Unsupported
    ensures ProcessResult(config, log, f, domain).records == []
        <==> SafeSentTokenize(Normalize(ExtractedText(f)), config.sentTokenize) == []
  {
    ChunkCount(SafeSentTokenize(Normalize(ExtractedText(f)), config.sentTokenize), ChunkSizeTokens, OverlapTokens);
  }

  /** With hashing on, processing the same unchanged file again is a skip. */
  lemma {:induction false} SecondCallSkips(config: Config, log: map<string, string>, f: SourceFile, domain: string)
    requires config.useHashing
    ensures var first := ProcessResult(config, log, f, domain);
      Kind(f) != Unsupported ==> Skips(config, first.log, f)
    ensures var first := ProcessResult(config, log, f, domain);
      ProcessResult(config, first.log, f, domain) == DocumentRun([], first.log)
  {
  }

  /** With hashing off the log is never written and never consulted. */
  lemma {:induction false} NoHashingIgnoresLog(config: Config, log1: map<string, string>, log2: map<string, string>, f: SourceFile, domain: string)
    requires !config.useHashing
    ensures ProcessResult(config, log1, f, domain).log == log1
    ensures ProcessResult(config, log1, f, domain).records == ProcessResult(config, log2, f, domain).records
  {
  }

  // ---------- the index map of process_all ----------

  predicate Increasing(s: seq<nat>)
  {
    forall a, b :: 0 <= a < b < |s| ==> s[a] < s[b]
  }

  predicate Below(s: seq<nat>, n: nat)
  {
    forall j :: 0 <= j < |s| ==> s[j] < n
  }

  /** The ascending positions of the entries with the given `source`. */
  function SourceIndices(entries: seq<ChunkRecord>, source: Option<string>): (r: seq<nat>)
    ensures Increasing(r) && Below(r, |entries|)
    ensures forall j :: 0 <= j < |r| ==> entries[r[j]].source == source
    decreases |entries|
  {
    if entries == [] then []
    else
      var n := |entries| - 1;
      var r := SourceIndices(entries[..n], source) + (if entries[n].source == source then [n] else []);
      assert forall i :: 0 <= i < n ==> entries[..n][i] == entries[i];
      r
  }

  /** `source_index_map.get(key, [])` */
  function Lookup(index: map<Option<string>, seq<nat>>, key: Option<string>): seq<nat>
  {
    if key in index then index[key] else []
  }

  /** The map that the loop over `enumerate(all_chunks)` builds. */
  function IndexMap(entries: seq<ChunkRecord>): map<Option<string>, seq<nat>>
    decreases |entries|
  {
    if entries == [] then map[]
    else
      var n := |entries| - 1;
      var m := IndexMap(entries[..n]);
      m[entries[n].source := Lookup(m, entries[n].source) + [n]]
  }

  /** Each source maps to exactly its positions, and a source is a key
      exactly when it occurs. */
  lemma {:induction false} IndexMapLookup(entries: seq<ChunkRecord>, key: Option<string>)
    ensures Lookup(IndexMap(entries), key) == SourceIndices(entries, key)
    ensures key in IndexMap(entries) <==> SourceIndices(entries, key) != []
    decreases |entries|
  {
    if entries != [] {
      IndexMapLookup(entries[..|entries| - 1], key);
    }
  }

  /** Building the map, as the loop at the head of each domain does. */
  method BuildIndexMap(entries: seq<ChunkRecord>) returns (index: map<Option<string>, seq<nat>>)
    ensures index == IndexMap(entries)
  {
    index := map[];
    for idx := 0 to |entries|
      invariant index == IndexMap(entries[..idx])
    {
      var sourceFile := entries[idx].source;
      if sourceFile !in index {
        index := index[sourceFile := []];
      }
      index := index[sourceFile := index[sourceFile] + [idx]];
      assert entries[..idx + 1][..idx] == entries[..idx];
    }
    assert entries[..|entries|] == entries;
  }

  // ---------- deletion by position ----------

  /** `del xs[i]` for each `i` of `indices`, last one first; an index past
      the end raises `IndexError`. On an ascending list this is the
      `sorted(..., reverse=True)` order of the source. */
  function DeleteFromEnd<T>(xs: seq<T>, indices: seq<nat>): Result<seq<T>>
    decreases |indices|
  {
    if indices == [] then Ok(xs)
    else
      var i := indices[|indices| - 1];
      if i >= |xs| then Err(IndexError)
      else DeleteFromEnd(xs[..i] + xs[i + 1..], indices[..|indices| - 1])
  }

  method DeleteDescending(entries: seq<ChunkRecord>, indices: seq<nat>) returns (r: Result<seq<ChunkRecord>>)
    ensures r == DeleteFromEnd(entries, indices)
  {
    var rest := entries;
    var j := |indices|;
    assert indices[..j] == indices;
    while j > 0
      invariant 0 <= j <= |indices|
      invariant DeleteFromEnd(rest, indices[..j]) == DeleteFromEnd(entries, indices)
    {
      var i := indices[j - 1];
      assert indices[..j][..j - 1] == indices[..j - 1];
      if i >= |rest| {
        return Err(IndexError);
      }
      rest := rest[..i] + rest[i + 1..];
      j := j - 1;
    }
    return Ok(rest);
  }

  /** Deleting positions that all lie in `p` does not touch an element after `p`. */
  lemma {:induction false} DeleteFromEndAppend<T>(p: seq<T>, x: T, indices: seq<nat>)
    requires Increasing(indices) && Below(indices, |p|)
    ensures DeleteFromEnd(p, indices).Ok?
    ensures DeleteFromEnd(p + [x], indices) == Ok(DeleteFromEnd(p, indices).value + [x])
    decreases |indices|
  {
    if indices != [] {
      var n := |indices| - 1;
      var i := indices[n];
      var q := p[..i] + p[i + 1..];
      assert (p + [x])[..i] + (p + [x])[i + 1..] == q + [x];
      assert Below(indices[..n], |q|) by {
        forall j | 0 <= j < n ensures indices[..n][j] < |q| {
          assert indices[j] < indices[n];
        }
      }
      DeleteFromEndAppend(q, x, indices[..n]);
    }
  }

  /** The entries whose source is one of `names`. */
  predicate FromAny(e: ChunkRecord, names: set<string>)
  {
    e.source.Some? && e.source.value in names
  }

  /** The entries whose source is not one of `names`, in order. */
  function Drop(entries: seq<ChunkRecord>, names: set<string>): (r: seq<ChunkRecord>)
    ensures |r| <= |entries|
    ensures forall j :: 0 <= j < |r| ==> !FromAny(r[j], names)
    decreases |entries|
  {
    if entries == [] then []
    else
      var n := |entries| - 1;
      Drop(entries[..n], names) + (if FromAny(entries[n], names) then [] else [entries[n]])
  }

  /** The step of `DeleteSource` for a last entry from the file. */
  lemma {:induction false} DeleteSourceHit(p: seq<ChunkRecord>, x: ChunkRecord, name: string)
    requires x.source == Some(name)
    requires DeleteFromEnd(p, SourceIndices(p, Some(name))) == Ok(Drop(p, {name}))
    ensures DeleteFromEnd(p + [x], SourceIndices(p + [x], Some(name))) == Ok(Drop(p + [x], {name}))
  {
    var s := SourceIndices(p, Some(name));
    SourceIndicesSnoc(p, x, Some(name));
    assert (p + [x])[..|p|] == p && (p + [x])[|p|] == x;
    assert Drop(p + [x], {name}) == Drop(p, {name}) by {
      assert FromAny(x, {name});
    }
    assert DeleteFromEnd(p + [x], s + [|p|]) == DeleteFromEnd(p, s) by {
      assert (p + [x])[..|p|] + (p + [x])[|p| + 1..] == p;
      assert (s + [|p|])[..|s|] == s;
    }
  }

  /** The step of `DeleteSource` for a last entry from another file. */
  lemma {:induction false} DeleteSourceMiss(p: seq<ChunkRecord>, x: ChunkRecord, name: string)
    requires x.source != Some(name)
    requires DeleteFromEnd(p, SourceIndices(p, Some(name))) == Ok(Drop(p, {name}))
    ensures DeleteFromEnd(p + [x], SourceIndices(p + [x], Some(name))) == Ok(Drop(p + [x], {name}))
  {
    var s := SourceIndices(p, Some(name));
    SourceIndicesSnoc(p, x, Some(name));
    assert (p + [x])[..|p|] == p && (p + [x])[|p|] == x;
    assert Drop(p + [x], {name}) == Drop(p, {name}) + [x] by {
      assert !FromAny(x, {name});
    }
    assert SourceIndices(p + [x], Some(name)) == s + [] == s;
    DeleteFromEndAppend(p, x, s);
  }

  /** Deleting every position of a source, from the end, removes exactly
      that source's entries and keeps the rest in order. */
  lemma {:induction false} DeleteSource(entries: seq<ChunkRecord>, name: string)
    ensures DeleteFromEnd(entries, SourceIndices(entries, Some(name))) == Ok(Drop(entries, {name}))
    decreases |entries|
  {
    if entries != [] {
      var n := |entries| - 1;
      var p, x := entries[..n], entries[n];
      assert entries == p + [x];
      DeleteSource(p, name);
      if x.source == Some(name) {
        DeleteSourceHit(p, x, name);
      } else {
        DeleteSourceMiss(p, x, name);
      }
    }
  }

  // ---------- the per-domain update ----------

  /** One reprocessed file in `process_all`: nothing happens for an empty
      result; otherwise the positions the (stale) map holds for the file name
      are deleted and the new records appended. */
  function ReplaceStale(index: map<Option<string>, seq<nat>>, entries: seq<ChunkRecord>, name: string, records: seq<ChunkRecord>)
    : Result<seq<ChunkRecord>>
  {
    if records == [] then Ok(entries)
    else
      match DeleteFromEnd(entries, Lookup(index, Some(name)))
      case Err(e) => Err(e)
      case Ok(kept) => Ok(kept + records)
  }

  /** Removing a file's entries by source and appending its new records. */
  function ReplaceFresh(entries: seq<ChunkRecord>, name: string, records: seq<ChunkRecord>): seq<ChunkRecord>
  {
    if records == [] then entries else Drop(entries, {name}) + records
  }

  /** With a map built from the very list being updated (the first update of a
      run), the stale replacement is the intended one. */
  lemma {:induction false} FirstReplaceIsFresh(entries: seq<ChunkRecord>, name: string, records: seq<ChunkRecord>)
    ensures ReplaceStale(IndexMap(entries), entries, name, records) == Ok(ReplaceFresh(entries, name, records))
  {
    IndexMapLookup(entries, Some(name));
    DeleteSource(entries, name);
  }

  datatype DomainRun = DomainRun(chunks: Result<seq<ChunkRecord>>, log: map<string, string>)

  /** The loop over the files of one domain with the map built once. */
  function FeedFiles(config: Config, index: map<Option<string>, seq<nat>>, domain: string,
                     entries: seq<ChunkRecord>, log: map<string, string>, files: seq<SourceFile>): DomainRun
    decreases |files|
  {
    if files == [] then DomainRun(Ok(entries), log)
    else
      var run := ProcessResult(config, log, files[0], domain);
      match ReplaceStale(index, entries, files[0].name, run.records)
      case Err(e) => DomainRun(Err(e), run.log)
      case Ok(next) => FeedFiles(config, index, domain, next, run.log, files[1..])
  }

  /** One domain of `process_all`: a missing or malformed chunk file starts
      from the empty list. */
  function DomainOutcome(config: Config, log: map<string, string>, domain: string,
                         stored: Option<seq<ChunkRecord>>, files: seq<SourceFile>): DomainRun
  {
    var start := stored.GetOr([]);
    FeedFiles(config, IndexMap(start), domain, start, log, files)
  }

  /** A file that is skipped or has an unsupported extension. */
  predicate Untouched(config: Config, log: map<string, string>, f: SourceFile)
  {
    Skips(config, log, f) || Kind(f) == Unsupported
  }

  predicate DistinctPaths(files: seq<SourceFile>)
  {
    forall i, j :: 0 <= i < j < |files| ==> files[i].path != files[j].path
  }

  /** When every file is skipped or unsupported the list and the log stay as they were. */
  lemma {:induction false} AllUntouched(config: Config, index: map<Option<string>, seq<nat>>, domain: string,
                                        entries: seq<ChunkRecord>, log: map<string, string>, files: seq<SourceFile>)
    requires forall i :: 0 <= i < |files| ==> Untouched(config, log, files[i])
    ensures FeedFiles(config, index, domain, entries, log, files) == DomainRun(Ok(entries), log)
    decreases |files|
  {
    if files != [] {
      AllUntouched(config, index, domain, entries, log, files[1..]);
    }
  }

  /** When exactly one file is reprocessed, the domain list becomes the old
      list without that file's entries, followed by its new records. */
  lemma {:induction false} SingleFileReplaced(config: Config, domain: string, entries: seq<ChunkRecord>,
                                              log: map<string, string>, files: seq<SourceFile>, j: nat)
    requires j < |files| && DistinctPaths(files)
    requires forall i :: 0 <= i < |files| && i != j ==> Untouched(config, log, files[i])
    ensures var run := ProcessResult(config, log, files[j], domain);
      FeedFiles(config, IndexMap(entries), domain, entries, log, files)
        == DomainRun(Ok(ReplaceFresh(entries, files[j].name, run.records)), run.log)
    decreases j
  {
    var index := IndexMap(entries);
    if j > 0 {
      assert Untouched(config, log, files[0]);
      SingleFileReplaced(config, domain, entries, log, files[1..], j - 1);
    } else {
      var run := ProcessResult(config, log, files[0], domain);
      FirstReplaceIsFresh(entries, files[0].name, run.records);
      var next := ReplaceFresh(entries, files[0].name, run.records);
      forall i | 0 <= i < |files[1..]| ensures Untouched(config, run.log, files[1..][i]) {
        assert files[1..][i] == files[i + 1];
        assert files[i + 1].path != files[0].path;
      }
      AllUntouched(config, index, domain, next, run.log, files[1..]);
    }
  }

  /** Paths that no later file touches keep their log entry. */
  lemma {:induction false} FeedKeepsOtherPaths(config: Config, index: map<Option<string>, seq<nat>>, domain: string,
                                               entries: seq<ChunkRecord>, log: map<string, string>, files: seq<SourceFile>, path: string)
    requires path in log
    requires forall i :: 0 <= i < |files| ==> files[i].path != path
    ensures var out := FeedFiles(config, index, domain, entries, log, files).log;
      path in out && out[path] == log[path]
    decreases |files|
  {
    if files != [] {
      var run := ProcessResult(config, log, files[0], domain);
      match ReplaceStale(index, entries, files[0].name, run.records)
      case Err(_) =>
      case Ok(next) =>
        FeedKeepsOtherPaths(config, index, domain, next, run.log, files[1..], path);
    }
  }

  /** After a run with hashing that completes, every supported file is
      recorded in the log with its digest. */
  lemma {:induction false} FeedRecordsFiles(config: Config, index: map<Option<string>, seq<nat>>, domain: string,
                                            entries: seq<ChunkRecord>, log: map<string, string>, files: seq<SourceFile>)
    requires config.useHashing && DistinctPaths(files)
    requires FeedFiles(config, index, domain, entries, log, files).chunks.Ok?
    ensures var out := FeedFiles(config, index, domain, entries, log, files).log;
      forall i :: 0 <= i < |files| ==> Untouched(config, out, files[i])
    decreases |files|
  {
    if files != [] {
      var run := ProcessResult(config, log, files[0], domain);
      var next := ReplaceStale(index, entries, files[0].name, run.records).value;
      assert ReplaceStale(index, entries, files[0].name, run.records) == Ok(next);
      assert FeedFiles(config, index, domain, entries, log, files) == FeedFiles(config, index, domain, next, run.log, files[1..]);
      var out := FeedFiles(config, index, domain, next, run.log, files[1..]).log;
      FeedRecordsFiles(config, index, domain, next, run.log, files[1..]);
      assert Untouched(config, out, files[0]) by {
        if Kind(files[0]) != Unsupported {
          assert Skips(config, run.log, files[0]);
          forall i | 0 <= i < |files[1..]| ensures files[1..][i].path != files[0].path {
            assert files[1..][i] == files[i + 1];
          }
          FeedKeepsOtherPaths(config, index, domain, next, run.log, files[1..], files[0].path);
        }
      }
      forall i | 0 <= i < |files| ensures Untouched(config, out, files[i]) {
        if i > 0 {
          assert files[i] == files[1..][i - 1];
        }
      }
    }
  }

  /** With hashing on, running a domain a second time over its own output
      changes nothing. */
  lemma {:induction false} SecondRunUnchanged(config: Config, log: map<string, string>, domain: string,
                                              stored: Option<seq<ChunkRecord>>, files: seq<SourceFile>)
    requires config.useHashing && DistinctPaths(files)
    requires DomainOutcome(config, log, domain, stored, files).chunks.Ok?
    ensures var first := DomainOutcome(config, log, domain, stored, files);
      DomainOutcome(config, first.log, domain, Some(first.chunks.value), files) == first
  {
    var start := stored.GetOr([]);
    FeedRecordsFiles(config, IndexMap(start), domain, start, log, files);
    var first := DomainOutcome(config, log, domain, stored, files);
    var c := first.chunks.value;
    AllUntouched(config, IndexMap(c), domain, c, first.log, files);
  }

  // ---------- several reprocessed files: the stale map ----------

  /** A reprocessed file and the records it produced. */
  datatype Update = Update(name: string, records: seq<ChunkRecord>)

  /** The list updates of one domain as the source performs them: every
      deletion looks positions up in the map built before the first one. */
  function ReplaceAllStale(index: map<Option<string>, seq<nat>>, entries: seq<ChunkRecord>, updates: seq<Update>)
    : Result<seq<ChunkRecord>>
    decreases |updates|
  {
    if updates == [] then Ok(entries)
    else
      match ReplaceStale(index, entries, updates[0].name, updates[0].records)
      case Err(e) => Err(e)
      case Ok(next) => ReplaceAllStale(index, next, updates[1..])
  }

  /** The intended updates: every reprocessed file loses its old entries,
      found by source, whether or not it produced new records, and its new
      records are appended. */
  function ReplaceAllFresh(entries: seq<ChunkRecord>, updates: seq<Update>): seq<ChunkRecord>
    decreases |updates|
  {
    if updates == [] then entries
    else
      var n := |updates| - 1;
      Drop(ReplaceAllFresh(entries, updates[..n]), {updates[n].name}) + updates[n].records
  }

  function Concat(updates: seq<Update>): seq<ChunkRecord>
    decreases |updates|
  {
    if updates == [] then [] else Concat(updates[..|updates| - 1]) + updates[|updates| - 1].records
  }

  lemma {:induction false} SourceIndicesSnoc(p: seq<ChunkRecord>, x: ChunkRecord, key: Option<string>)
    ensures SourceIndices(p + [x], key) == SourceIndices(p, key) + (if x.source == key then [|p|] else [])
  {
    assert (p + [x])[..|p|] == p;
  }

  // Entries of two files, `a.txt` and `b.txt`, old and new.
  const OldA0 := ChunkRecord("a0", Some("a.txt"), "d", "i0")
  const OldA1 := ChunkRecord("a1", Some("a.txt"), "d", "i1")
  const OldB0 := ChunkRecord("b0", Some("b.txt"), "d", "i2")
  const OldB1 := ChunkRecord("b1", Some("b.txt"), "d", "i3")
  const NewA0 := ChunkRecord("a2", Some("a.txt"), "d", "i4")
  const NewA1 := ChunkRecord("a3", Some("a.txt"), "d", "i5")
  const NewB0 := ChunkRecord("b2", Some("b.txt"), "d", "i6")
  const NewB1 := ChunkRecord("b3", Some("b.txt"), "d", "i7")

  /** Deleting two neighbouring positions removes both. */
  lemma {:induction false} DeletePair<T>(xs: seq<T>, i: nat)
    requires i + 1 < |xs|
    ensures DeleteFromEnd(xs, [i, i + 1]) == Ok(xs[..i] + xs[i + 2..])
  {
    var ys := xs[..i + 1] + xs[i + 2..];
    var zs := ys[..i] + ys[i + 1..];
    assert zs == xs[..i] + xs[i + 2..];
    assert [i, i + 1][..1] == [i] && [i][..0] == [];
    assert DeleteFromEnd(zs, []) == Ok(zs);
    assert DeleteFromEnd(ys, [i]) == DeleteFromEnd(zs, []);
    assert DeleteFromEnd(xs, [i, i + 1]) == DeleteFromEnd(ys, [i]);
  }

  lemma {:induction false} IndicesOfA()
    ensures SourceIndices([OldA0, OldA1, OldB0], Some("a.txt")) == [0, 1]
    ensures SourceIndices([OldA0, OldA1, OldB0, OldB1], Some("a.txt")) == [0, 1]
  {
    var a := Some("a.txt");
    assert [] + [OldA0] == [OldA0];
    SourceIndicesSnoc([], OldA0, a);
    assert [OldA0] + [OldA1] == [OldA0, OldA1];
    SourceIndicesSnoc([OldA0], OldA1, a);
    assert [OldA0, OldA1] + [OldB0] == [OldA0, OldA1, OldB0];
    SourceIndicesSnoc([OldA0, OldA1], OldB0, a);
    assert [OldA0, OldA1, OldB0] + [OldB1] == [OldA0, OldA1, OldB0, OldB1];
    SourceIndicesSnoc([OldA0, OldA1, OldB0], OldB1, a);
  }

  lemma {:induction false} IndicesOfB()
    ensures SourceIndices([OldA0, OldA1, OldB0], Some("b.txt")) == [2]
    ensures SourceIndices([OldA0, OldA1, OldB0, OldB1], Some("b.txt")) == [2, 3]
  {
    var b := Some("b.txt");
    assert [] + [OldA0] == [OldA0];
    SourceIndicesSnoc([], OldA0, b);
    assert [OldA0] + [OldA1] == [OldA0, OldA1];
    SourceIndicesSnoc([OldA0], OldA1, b);
    assert [OldA0, OldA1] + [OldB0] == [OldA0, OldA1, OldB0];
    SourceIndicesSnoc([OldA0, OldA1], OldB0, b);
    assert [OldA0, OldA1, OldB0] + [OldB1] == [OldA0, OldA1, OldB0, OldB1];
    SourceIndicesSnoc([OldA0, OldA1, OldB0], OldB1, b);
  }

  /** Two stale updates in a row: the second starts from the list the first left. */
  lemma {:induction false} ReplaceAllStaleTwo(index: map<Option<string>, seq<nat>>, entries: seq<ChunkRecord>, u: Update, v: Update, next: seq<ChunkRecord>)
    requires ReplaceStale(index, entries, u.name, u.records) == Ok(next)
    ensures ReplaceAllStale(index, entries, [u, v]) == ReplaceStale(index, next, v.name, v.records)
  {
    assert [u, v][0] == u && [u, v][1..] == [v];
    assert [v][0] == v && [v][1..] == [];
    assert ReplaceAllStale(index, entries, [u, v]) == ReplaceAllStale(index, next, [v]);
    match ReplaceStale(index, next, v.name, v.records)
    case Err(_) =>
    case Ok(last) => assert ReplaceAllStale(index, last, []) == Ok(last);
  }

  /** A stale update whose map entry names two neighbouring positions. */
  lemma {:induction false} StalePair(index: map<Option<string>, seq<nat>>, xs: seq<ChunkRecord>, i: nat, name: string, records: seq<ChunkRecord>)
    requires Lookup(index, Some(name)) == [i, i + 1] && i + 1 < |xs| && records != []
    ensures ReplaceStale(index, xs, name, records) == Ok(xs[..i] + xs[i + 2..] + records)
  {
    DeletePair(xs, i);
  }

  /** Both files of `[a0, a1, b0, b1]` reprocessed, `a.txt` first: the new
      records of `a.txt` are deleted and the old ones of `b.txt` kept. */
  lemma {:induction false} StaleIndexLosesChunks()
    ensures var start := [OldA0, OldA1, OldB0, OldB1];
      ReplaceAllStale(IndexMap(start), start, [Update("a.txt", [NewA0, NewA1]), Update("b.txt", [NewB0, NewB1])])
        == Ok([OldB0, OldB1, NewB0, NewB1])
  {
    var start := [OldA0, OldA1, OldB0, OldB1];
    var index := IndexMap(start);
    assert Lookup(index, Some("a.txt")) == [0, 1] by {
      IndicesOfA();
      IndexMapLookup(start, Some("a.txt"));
    }
    assert Lookup(index, Some("b.txt")) == [2, 3] by {
      IndicesOfB();
      IndexMapLookup(start, Some("b.txt"));
    }
    var mid := [OldB0, OldB1, NewA0, NewA1];
    var final := [OldB0, OldB1, NewB0, NewB1];
    assert ReplaceStale(index, start, "a.txt", [NewA0, NewA1]) == Ok(mid) by {
      StalePair(index, start, 0, "a.txt", [NewA0, NewA1]);
      assert start[..0] + start[2..] + [NewA0, NewA1] == mid;
    }
    assert ReplaceStale(index, mid, "b.txt", [NewB0, NewB1]) == Ok(final) by {
      StalePair(index, mid, 2, "b.txt", [NewB0, NewB1]);
      assert mid[..2] + mid[4..] + [NewB0, NewB1] == final;
    }
    ReplaceAllStaleTwo(index, start, Update("a.txt", [NewA0, NewA1]), Update("b.txt", [NewB0, NewB1]), mid);
  }

  /** `a.txt` shrinks from two entries to one, after which the stale
      position of `b.txt`'s entry lies past the end of the list. */
  lemma {:induction false} StaleIndexRaises()
    ensures var start := [OldA0, OldA1, OldB0];
      ReplaceAllStale(IndexMap(start), start, [Update("a.txt", [NewA0]), Update("b.txt", [NewB0])]) == Err(IndexError)
  {
    var start := [OldA0, OldA1, OldB0];
    var index := IndexMap(start);
    assert Lookup(index, Some("a.txt")) == [0, 1] by {
      IndicesOfA();
      IndexMapLookup(start, Some("a.txt"));
    }
    assert Lookup(index, Some("b.txt")) == [2] by {
      IndicesOfB();
      IndexMapLookup(start, Some("b.txt"));
    }
    var mid := [OldB0, NewA0];
    assert ReplaceStale(index, start, "a.txt", [NewA0]) == Ok(mid) by {
      StalePair(index, start, 0, "a.txt", [NewA0]);
      assert start[..0] + start[2..] + [NewA0] == mid;
    }
    assert ReplaceStale(index, mid, "b.txt", [NewB0]) == Err(IndexError) by {
      assert [2][..0] == [];
    }
    ReplaceAllStaleTwo(index, start, Update("a.txt", [NewA0]), Update("b.txt", [NewB0]), mid);
  }

  /** The reprocessed files of one domain loop (neither skipped nor
      unsupported), each with the records it produced, in processing order. */
  function Reprocessed(config: Config, log: map<string, string>, domain: string, files: seq<SourceFile>): seq<Update>
    decreases |files|
  {
    if files == [] then []
    else
      var run := ProcessResult(config, log, files[0], domain);
      (if Untouched(config, log, files[0]) then [] else [Update(files[0].name, run.records)])
        + Reprocessed(config, run.log, domain, files[1..])
  }

  /** The domain loop updates its list exactly as the stale replacement of
      its reprocessed files does: the counterexamples above are runs of
      `process_all`. */
  lemma {:induction false} FeedFilesIsStale(config: Config, index: map<Option<string>, seq<nat>>, domain: string,
                                            entries: seq<ChunkRecord>, log: map<string, string>, files: seq<SourceFile>)
    ensures FeedFiles(config, index, domain, entries, log, files).chunks
         == ReplaceAllStale(index, entries, Reprocessed(config, log, domain, files))
    decreases |files|
  {
    if files != [] {
      var f := files[0];
      var run := ProcessResult(config, log, f, domain);
      var rest := Reprocessed(config, run.log, domain, files[1..]);
      if Untouched(config, log, f) {
        assert Reprocessed(config, log, domain, files) == rest;
        FeedFilesIsStale(config, index, domain, entries, log, files[1..]);
      } else {
        var u := Update(f.name, run.records);
        var all := Reprocessed(config, log, domain, files);
        assert all == [u] + rest;
        assert all[0] == u && all[1..] == rest;
        match ReplaceStale(index, entries, f.name, run.records)
        case Err(_) =>
        case Ok(next) =>
          FeedFilesIsStale(config, index, domain, next, run.log, files[1..]);
      }
    }
  }

  /** The records of a file do not depend on log entries of other paths. */
  lemma {:induction false} RecordsIgnoreOtherPaths(config: Config, log: map<string, string>, f: SourceFile, domain: string, g: SourceFile)
    requires g.path != f.path
    ensures ProcessResult(config, ProcessResult(config, log, g, domain).log, f, domain).records
         == ProcessResult(config, log, f, domain).records
  {
    var log2 := ProcessResult(config, log, g, domain).log;
    assert Skips(config, log2, f) == Skips(config, log, f);
  }

  /** Files that produce no records leave the domain list as it was,
      whatever the map says. */
  lemma {:induction false} NoRecordsKeepsList(config: Config, index: map<Option<string>, seq<nat>>, domain: string,
                                              entries: seq<ChunkRecord>, log: map<string, string>, files: seq<SourceFile>)
    requires DistinctPaths(files)
    requires forall i :: 0 <= i < |files| ==> ProcessResult(config, log, files[i], domain).records == []
    ensures FeedFiles(config, index, domain, entries, log, files).chunks == Ok(entries)
    decreases |files|
  {
    if files != [] {
      var run := ProcessResult(config, log, files[0], domain);
      var tail := files[1..];
      forall i | 0 <= i < |tail| ensures ProcessResult(config, run.log, tail[i], domain).records == [] {
        assert tail[i] == files[i + 1];
        RecordsIgnoreOtherPaths(config, log, tail[i], domain, files[0]);
      }
      NoRecordsKeepsList(config, index, domain, entries, run.log, tail);
    }
  }

  /** When exactly one file of a domain yields records (the others being
      skipped, unsupported or reprocessed into nothing), the list becomes the
      old list without that file's entries, followed by its new records. */
  lemma {:induction false} OneFileYieldsChunks(config: Config, domain: string, entries: seq<ChunkRecord>,
                                               log: map<string, string>, files: seq<SourceFile>, j: nat)
    requires j < |files| && DistinctPaths(files)
    requires forall i :: 0 <= i < |files| && i != j ==> ProcessResult(config, log, files[i], domain).records == []
    ensures FeedFiles(config, IndexMap(entries), domain, entries, log, files).chunks
         == Ok(ReplaceFresh(entries, files[j].name, ProcessResult(config, log, files[j], domain).records))
    decreases j
  {
    var index := IndexMap(entries);
    var run := ProcessResult(config, log, files[0], domain);
    var tail := files[1..];
    if j > 0 {
      forall i | 0 <= i < |tail| && i != j - 1 ensures ProcessResult(config, run.log, tail[i], domain).records == [] {
        assert tail[i] == files[i + 1];
        RecordsIgnoreOtherPaths(config, log, tail[i], domain, files[0]);
      }
      assert tail[j - 1] == files[j];
      RecordsIgnoreOtherPaths(config, log, files[j], domain, files[0]);
      OneFileYieldsChunks(config, domain, entries, run.log, tail, j - 1);
    } else {
      FirstReplaceIsFresh(entries, files[0].name, run.records);
      var next := ReplaceFresh(entries, files[0].name, run.records);
      forall i | 0 <= i < |tail| ensures ProcessResult(config, run.log, tail[i], domain).records == [] {
        assert tail[i] == files[i + 1];
        RecordsIgnoreOtherPaths(config, log, tail[i], domain, files[0]);
      }
      NoRecordsKeepsList(config, index, domain, next, run.log, tail);
    }
  }

  /** As written, a changed file that now yields no chunks keeps its old
      entries in the domain list while its new digest is logged, so the next
      run skips it and the stale entries stay. */
  lemma {:induction false} EmptiedFileKeepsChunks(config: Config, log: map<string, string>, domain: string,
                                                  entries: seq<ChunkRecord>, f: SourceFile)
    requires config.useHashing && !Untouched(config, log, f) && DocumentChunks(config, f) == []
    ensures var first := DomainOutcome(config, log, domain, Some(entries), [f]);
      && first == DomainRun(Ok(entries), log[f.path := f.fileHash])
      && DomainOutcome(config, first.log, domain, Some(entries), [f]) == first
  {
    var log2 := log[f.path := f.fileHash];
    var run := ProcessResult(config, log, f, domain);
    assert run == DocumentRun([], log2) by {
      assert |ChunkRecords(config.sha1Hex, domain, f.name, [])| == 0;
    }
    assert [f][0] == f && [f][1..] == [];
    assert FeedFiles(config, IndexMap(entries), domain, entries, log, [f])
        == FeedFiles(config, IndexMap(entries), domain, entries, log2, []);
    assert Skips(config, log2, f);
    assert FeedFiles(config, IndexMap(entries), domain, entries, log2, [f])
        == FeedFiles(config, IndexMap(entries), domain, entries, log2, []);
  }

  lemma {:induction false} DropAppend(a: seq<ChunkRecord>, b: seq<ChunkRecord>, names: set<string>)
    ensures Drop(a + b, names) == Drop(a, names) + Drop(b, names)
    decreases |b|
  {
    if b == [] {
      assert a + b == a;
    } else {
      var n := |b| - 1;
      DropAppend(a, b[..n], names);
      assert (a + b)[..|a + b| - 1] == a + b[..n];
    }
  }

  lemma {:induction false} DropDrop(a: seq<ChunkRecord>, n1: set<string>, n2: set<string>)
    ensures Drop(Drop(a, n1), n2) == Drop(a, n1 + n2)
    decreases |a|
  {
    if a != [] {
      var n := |a| - 1;
      var p, x := a[..n], a[n];
      DropDrop(p, n1, n2);
      if !FromAny(x, n1) {
        assert Drop(a, n1) == Drop(p, n1) + [x];
        DropAppend(Drop(p, n1), [x], n2);
        assert [x][..0] == [];
        assert Drop([x], n2) == (if FromAny(x, n2) then [] else [x]);
        assert FromAny(x, n1 + n2) == FromAny(x, n2);
      } else {
        assert Drop(a, n1) == Drop(p, n1);
        assert FromAny(x, n1 + n2);
      }
    }
  }

  lemma {:induction false} DropNone(a: seq<ChunkRecord>, names: set<string>)
    requires forall j :: 0 <= j < |a| ==> !FromAny(a[j], names)
    ensures Drop(a, names) == a
    decreases |a|
  {
    if a != [] {
      DropNone(a[..|a| - 1], names);
    }
  }

  /** The file names of the updates. */
  function Names(updates: seq<Update>): set<string>
    decreases |updates|
  {
    if updates == [] then {} else Names(updates[..|updates| - 1]) + {updates[|updates| - 1].name}
  }

  /** Every record an update carries names that update's file as its source. */
  predicate WellSourced(updates: seq<Update>)
    decreases |updates|
  {
    updates == [] ||
    (var u := updates[|updates| - 1];
     WellSourced(updates[..|updates| - 1]) &&
     forall j :: 0 <= j < |u.records| ==> u.records[j].source == Some(u.name))
  }

  /** No file name occurs twice. */
  predicate DistinctNames(updates: seq<Update>)
    decreases |updates|
  {
    updates == [] ||
    (DistinctNames(updates[..|updates| - 1]) && updates[|updates| - 1].name !in Names(updates[..|updates| - 1]))
  }

  lemma {:induction false} ConcatSources(updates: seq<Update>)
    requires WellSourced(updates)
    ensures forall j :: 0 <= j < |Concat(updates)| ==> FromAny(Concat(updates)[j], Names(updates))
    decreases |updates|
  {
    if updates != [] {
      var n := |updates| - 1;
      var init, u := updates[..n], updates[n];
      ConcatSources(init);
      var c, ci := Concat(updates), Concat(init);
      assert c == ci + u.records;
      forall j | 0 <= j < |c| ensures FromAny(c[j], Names(updates)) {
        if j < |ci| {
          assert c[j] == ci[j];
        } else {
          assert c[j] == u.records[j - |ci|];
        }
      }
    }
  }

  /** The entries of the earlier updates survive the removal of a new name. */
  lemma {:induction false} FreshStep(entries: seq<ChunkRecord>, init: seq<Update>, name: string)
    requires WellSourced(init) && name !in Names(init)
    ensures Drop(Drop(entries, Names(init)) + Concat(init), {name})
         == Drop(entries, Names(init) + {name}) + Concat(init)
  {
    var kept, cat := Drop(entries, Names(init)), Concat(init);
    ConcatSources(init);
    forall j | 0 <= j < |cat| ensures !FromAny(cat[j], {name}) {
      assert FromAny(cat[j], Names(init));
    }
    DropNone(cat, {name});
    DropAppend(kept, cat, {name});
    DropDrop(entries, Names(init), {name});
  }

  /** With the entries found by source, any number of reprocessed files with
      distinct names replace exactly their own entries: the result is the old
      list without any reprocessed file's entries, followed by all new
      records in processing order. */
  lemma {:induction false} FreshReplacesEveryFile(entries: seq<ChunkRecord>, updates: seq<Update>)
    requires WellSourced(updates) && DistinctNames(updates)
    ensures ReplaceAllFresh(entries, updates) == Drop(entries, Names(updates)) + Concat(updates)
    decreases |updates|
  {
    if updates == [] {
      DropNone(entries, {});
    } else {
      var n := |updates| - 1;
      var init, u := updates[..n], updates[n];
      FreshReplacesEveryFile(entries, init);
      var kept, cat := Drop(entries, Names(init)), Concat(init);
      assert Concat(updates) == cat + u.records;
      assert ReplaceAllFresh(entries, updates) == Drop(kept + cat, {u.name}) + u.records by {
        assert updates[..n] == init;
      }
      assert Drop(kept + cat, {u.name}) == Drop(entries, Names(init) + {u.name}) + cat by {
        assert u.name !in Names(init) && WellSourced(init);
        FreshStep(entries, init, u.name);
      }
    }
  }

  /** A reprocessed file that produced no records still loses its old
      entries under the corrected update. */
  lemma {:induction false} FreshDropsEmptiedFile(entries: seq<ChunkRecord>, name: string)
    ensures ReplaceAllFresh(entries, [Update(name, [])]) == Drop(entries, {name})
  {
    assert [Update(name, [])][..0] == [];
  }

  lemma {:induction false} DropAll(a: seq<ChunkRecord>, names: set<string>)
    requires forall j :: 0 <= j < |a| ==> FromAny(a[j], names)
    ensures Drop(a, names) == []
    decreases |a|
  {
    if a != [] {
      DropAll(a[..|a| - 1], names);
    }
  }

  /** On the input of `StaleIndexLosesChunks` the corrected update keeps
      exactly the new records of both files. */
  lemma {:induction false} FreshKeepsBothFiles()
    ensures var start := [OldA0, OldA1, OldB0, OldB1];
      ReplaceAllFresh(start, [Update("a.txt", [NewA0, NewA1]), Update("b.txt", [NewB0, NewB1])])
        == [NewA0, NewA1, NewB0, NewB1]
  {
    var start := [OldA0, OldA1, OldB0, OldB1];
    var updates := [Update("a.txt", [NewA0, NewA1]), Update("b.txt", [NewB0, NewB1])];
    var first := updates[..1];
    assert first == [updates[0]] && first[..0] == [];
    assert WellSourced(updates) && DistinctNames(updates) by {
      assert Names(first) == {"a.txt"};
      assert WellSourced(first) && DistinctNames(first);
    }
    FreshReplacesEveryFile(start, updates);
    assert Drop(start, Names(updates)) == [] by {
      assert Names(first) == {"a.txt"};
      assert Names(updates) == {"a.txt", "b.txt"};
      DropAll(start, {"a.txt", "b.txt"});
    }
    assert Concat(updates) == [NewA0, NewA1, NewB0, NewB1] by {
      assert Concat(first) == [NewA0, NewA1];
    }
  }

  // ---------- process_all ----------

  /** An entry of the raw directory: its name, whether it is a directory,
      the list its `<name>_chunks.json` held (`None` when missing, not JSON
      or not a list) and its files. */
  datatype DomainDir = DomainDir(name: string, isDirectory: bool, stored: Option<seq<ChunkRecord>>, files: seq<SourceFile>)

  /** A chunk file written by `process_all`. */
  datatype SavedChunks = SavedChunks(fileName: string, chunks: seq<ChunkRecord>)

  /** The chunk files written, the log file written (`None` when the run
      stopped before writing it) and the in-memory log. */
  datatype BatchRun = BatchRun(saved: seq<SavedChunks>, savedLog: Option<map<string, string>>, log: map<string, string>)

  /** Some domain directory of the run raises `IndexError`. */
  predicate Raises(config: Config, log: map<string, string>, dirs: seq<DomainDir>)
    decreases |dirs|
  {
    if dirs == [] then false
    else if !dirs[0].isDirectory then Raises(config, log, dirs[1..])
    else
      var run := DomainOutcome(config, log, dirs[0].name, dirs[0].stored, dirs[0].files);
      run.chunks.Err? || Raises(config, run.log, dirs[1..])
  }

  function RunDomains(config: Config, log: map<string, string>, dirs: seq<DomainDir>): BatchRun
    decreases |dirs|
  {
    if dirs == [] then BatchRun([], Some(log), log)
    else if !dirs[0].isDirectory then RunDomains(config, log, dirs[1..])
    else
      var d := dirs[0];
      var run := DomainOutcome(config, log, d.name, d.stored, d.files);
      match run.chunks
      case Err(_) => BatchRun([], None, run.log)
      case Ok(chunks) =>
        var rest := RunDomains(config, run.log, dirs[1..]);
        BatchRun([SavedChunks(d.name + "_chunks.json", chunks)] + rest.saved, rest.savedLog, rest.log)
  }

  /** `process_all`: nothing at all when the raw directory is missing. */
  function ProcessAllOutcome(config: Config, log: map<string, string>, rawDirExists: bool, dirs: seq<DomainDir>): BatchRun
  {
    if !rawDirExists then BatchRun([], None, log) else RunDomains(config, log, dirs)
  }

  /** The entries of the raw directory that are directories, in order. */
  function Directories(dirs: seq<DomainDir>): seq<DomainDir>
    decreases |dirs|
  {
    if dirs == [] then []
    else (if dirs[0].isDirectory then [dirs[0]] else []) + Directories(dirs[1..])
  }

  /** The chunk files are named after the domain directories, in order. */
  lemma {:induction false} RunDomainsNames(config: Config, log: map<string, string>, dirs: seq<DomainDir>)
    ensures var out := RunDomains(config, log, dirs);
      && |out.saved| <= |Directories(dirs)|
      && (forall k :: 0 <= k < |out.saved| ==> out.saved[k].fileName == Directories(dirs)[k].name + "_chunks.json")
    decreases |dirs|
  {
    if dirs != [] {
      var d := dirs[0];
      if !d.isDirectory {
        RunDomainsNames(config, log, dirs[1..]);
        assert Directories(dirs) == Directories(dirs[1..]) by {
          assert Directories(dirs) == [] + Directories(dirs[1..]);
        }
      } else {
        var run := DomainOutcome(config, log, d.name, d.stored, d.files);
        if run.chunks.Ok? {
          RunDomainsNames(config, run.log, dirs[1..]);
          var out := RunDomains(config, log, dirs);
          var rest := RunDomains(config, run.log, dirs[1..]);
          assert out.saved == [SavedChunks(d.name + "_chunks.json", run.chunks.value)] + rest.saved;
          assert Directories(dirs) == [d] + Directories(dirs[1..]);
          forall k | 0 <= k < |out.saved|
            ensures out.saved[k].fileName == Directories(dirs)[k].name + "_chunks.json"
          {
            if k > 0 {
              assert out.saved[k] == rest.saved[k - 1];
            }
          }
        }
      }
    }
  }

  /** The log file is written, with the final log, exactly when every domain
      completed. */
  lemma {:induction false} RunDomainsLog(config: Config, log: map<string, string>, dirs: seq<DomainDir>)
    ensures var out := RunDomains(config, log, dirs);
      && (out.savedLog.Some? <==> |out.saved| == |Directories(dirs)| && !Raises(config, log, dirs))
      && (out.savedLog.Some? ==> out.savedLog.value == out.log)
    decreases |dirs|
  {
    if dirs != [] {
      var d := dirs[0];
      if !d.isDirectory {
        RunDomainsLog(config, log, dirs[1..]);
        assert Directories(dirs) == Directories(dirs[1..]) by {
          assert Directories(dirs) == [] + Directories(dirs[1..]);
        }
      } else {
        var run := DomainOutcome(config, log, d.name, d.stored, d.files);
        if run.chunks.Ok? {
          RunDomainsLog(config, run.log, dirs[1..]);
          assert Directories(dirs) == [d] + Directories(dirs[1..]);
        }
      }
    }
  }

  /** Chunk files are written for the domain directories in order, one each,
      and a run stops at the first domain that raises; the log file is
      written, with the final log, exactly when every domain completed. */
  lemma RunDomainsSaves(config: Config, log: map<string, string>, dirs: seq<DomainDir>)
    ensures var out := RunDomains(config, log, dirs);
      && |out.saved| <= |Directories(dirs)|
      && (forall k :: 0 <= k < |out.saved| ==> out.saved[k].fileName == Directories(dirs)[k].name + "_chunks.json")
      && (out.savedLog.Some? <==> |out.saved| == |Directories(dirs)| && !Raises(config, log, dirs))
      && (out.savedLog.Some? ==> out.savedLog.value == out.log)
  {
    RunDomainsNames(config, log, dirs);
    RunDomainsLog(config, log, dirs);
  }

  // ---------- the loader object ----------

  /** The `enumerate(chunks)` loop of `process_document`. */
  method BuildRecords(sha1Hex: string -> string, domain: string, name: string, chunks: seq<string>)
    returns (records: seq<ChunkRecord>)
    ensures records == ChunkRecords(sha1Hex, domain, name, chunks)
  {
    records := [];
    for idx := 0 to |chunks|
      invariant records == ChunkRecords(sha1Hex, domain, name, chunks[..idx])
    {
      var chunkId := ChunkId(sha1Hex, domain, chunks[idx], idx);
      records := records + [ChunkRecord(chunks[idx], Some(name), domain, chunkId)];
      assert chunks[..idx + 1][..idx] == chunks[..idx];
    }
    assert chunks[..|chunks|] == chunks;
  }

  class DocumentLoader {
    const config: Config
    /** `process_log`: file path to the SHA-256 digest last processed. */
    var processLog: map<string, string>

    /** `__init__`: the log file's contents when it exists, else `{}`. */
    constructor (config: Config, storedLog: Option<map<string, string>>)
      ensures this.config == config
      ensures processLog == storedLog.GetOr(map[])
    {
      this.config := config;
      processLog := storedLog.GetOr(map[]);
    }

    /** `process_document(file_path, domain)`. */
    method ProcessDocument(f: SourceFile, domain: string) returns (records: seq<ChunkRecord>)
      modifies this
      ensures DocumentRun(records, processLog) == ProcessResult(config, old(processLog), f, domain)
    {
      if config.useHashing {
        if f.path in processLog && processLog[f.path] == f.fileHash {
          return [];
        }
      }
      var ext := Lower(Suffix(f.name));
      var text: string;
      if ext == ".pdf" {
        text := f.text;
        if Strip(text) == [] {
          text := f.ocrText;
        }
      } else if ext == ".md" || ext == ".txt" {
        text := f.text;
      } else {
        return [];
      }
      assert text == ExtractedText(f) && Kind(f) != Unsupported;
      assert !Skips(config, processLog, f);
      text := Normalize(text);
      var chunks := ChunkText(text, config.sentTokenize, ChunkSizeTokens, OverlapTokens);
      assert chunks == DocumentChunks(config, f);
      records := BuildRecords(config.sha1Hex, domain, f.name, chunks);
      if config.useHashing {
        processLog := processLog[f.path := f.fileHash];
      }
    }

    /** The body of the domain loop of `process_all`, up to the write of the
        chunk file. */
    method ProcessDomain(domain: string, stored: Option<seq<ChunkRecord>>, files: seq<SourceFile>)
      returns (r: Result<seq<ChunkRecord>>)
      modifies this
      ensures DomainRun(r, processLog) == DomainOutcome(config, old(processLog), domain, stored, files)
    {
      var allChunks := stored.GetOr([]);
      var index := BuildIndexMap(allChunks);
      for i := 0 to |files|
        invariant FeedFiles(config, index, domain, allChunks, processLog, files[i..])
               == DomainOutcome(config, old(processLog), domain, stored, files)
      {
        var newChunks := ProcessDocument(files[i], domain);
        assert files[i..][1..] == files[i + 1..];
        if newChunks == [] {
          continue;
        }
        var oldIndices := Lookup(index, Some(files[i].name));
        var kept := DeleteDescending(allChunks, oldIndices);
        if kept.Err? {
          return Err(kept.error);
        }
        allChunks := kept.value + newChunks;
      }
      return Ok(allChunks);
    }

    /** `process_all()`: the chunk files and the log file it writes. */
    method ProcessAll(rawDirExists: bool, dirs: seq<DomainDir>) returns (saved: seq<SavedChunks>, savedLog: Option<map<string, string>>)
      modifies this
      ensures BatchRun(saved, savedLog, processLog) == ProcessAllOutcome(config, old(processLog), rawDirExists, dirs)
    {
      saved := [];
      if !rawDirExists {
        return saved, None;
      }
      for i := 0 to |dirs|
        invariant var rest := RunDomains(config, processLog, dirs[i..]);
          BatchRun(saved + rest.saved, rest.savedLog, rest.log) == RunDomains(config, old(processLog), dirs)
      {
        assert dirs[i..][1..] == dirs[i + 1..];
        var d := dirs[i];
        if !d.isDirectory {
          continue;
        }
        var chunks := ProcessDomain(d.name, d.stored, d.files);
        if chunks.Err? {
          return saved, None;
        }
        saved := saved + [SavedChunks(d.name + "_chunks.json", chunks.value)];
      }
      savedLog := Some(processLog);
    }
  }
}
