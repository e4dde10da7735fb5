/** `RAGRetriever` (rag_agent/app/prompt/retriever.py): turns the hits of a
    similarity search into the context handed to the language model.
    `retrieve` joins every returned document; `retrieve_v2` keeps the
    documents closer than the L2 threshold and otherwise falls back to the
    nearest one when it is still weakly similar. The search itself (query
    embedding and the vector-store query) is a parameter: its hits, nearest
    first. */
module Retrieval {
  import opened Common
  import opened Text

  /** A returned document and its L2 distance to the query. */
  datatype Hit = Hit(document: string, distance: real)

  const L2Threshold: real := 1.15
  const FallbackThreshold: real := 1.6
  const NewLine: char := '\n'

  function Docs(hits: seq<Hit>): (r: seq<string>)
    ensures |r| == |hits| && forall k :: 0 <= k < |hits| ==> r[k] == hits[k].document
  {
    seq(|hits|, k requires 0 <= k < |hits| => hits[k].document)
  }

  /** `retrieve`: every returned document, joined by newlines. */
  function Retrieve(hits: seq<Hit>): string
  {
    Join([NewLine], Docs(hits))
  }

  /** The hits strictly closer than the threshold, in search order. */
  function CloseHits(hits: seq<Hit>): (r: seq<Hit>)
    ensures |r| <= |hits|
    decreases |hits|
  {
    if hits == [] then []
    else
      var init := CloseHits(hits[..|hits| - 1]);
      if hits[|hits| - 1].distance < L2Threshold then init + [hits[|hits| - 1]] else init
  }

  /** `retrieve_v2`: the close documents; when there are none, the nearest
      document if its distance is below the fallback threshold, else the
      empty context. An empty search result raises `IndexError` there. */
  function FilteredContext(hits: seq<Hit>): Result<string>
  {
    var close := CloseHits(hits);
    if close != [] then Ok(Join([NewLine], Docs(close)))
    else if hits == [] then Err(IndexError)
    else if hits[0].distance < FallbackThreshold then Ok(hits[0].document)
    else Ok("")
  }

  /** The close hits keep their order. */
  lemma {:induction false} CloseHitsOrder(hits: seq<Hit>)
    ensures Subsequence(CloseHits(hits), hits)
    decreases |hits|
  {
    if hits != [] {
      var init, last := hits[..|hits| - 1], hits[|hits| - 1];
      CloseHitsOrder(init);
      SubsequenceExtend(CloseHits(init), init, last);
      assert init + [last] == hits;
    }
  }

  /** Exactly the hits under the threshold are kept, each as often as it was
      returned. */
  lemma {:induction false} CloseHitsCount(hits: seq<Hit>, h: Hit)
    ensures Count(CloseHits(hits), h) == if h.distance < L2Threshold then Count(hits, h) else 0
    decreases |hits|
  {
    if hits != [] {
      var init, last := hits[..|hits| - 1], hits[|hits| - 1];
      var r, r' := CloseHits(hits), CloseHits(init);
      CloseHitsCount(init, h);
      if last.distance < L2Threshold {
        assert r == r' + [last];
        assert r[..|r| - 1] == r';
      }
    }
  }

  /** Nothing is close exactly when every distance reaches the threshold. */
  lemma {:induction false} CloseHitsEmptyIff(hits: seq<Hit>)
    ensures CloseHits(hits) == [] <==> forall i :: 0 <= i < |hits| ==> hits[i].distance >= L2Threshold
    decreases |hits|
  {
    if hits != [] {
      var init := hits[..|hits| - 1];
      CloseHitsEmptyIff(init);
      assert forall i :: 0 <= i < |init| ==> init[i] == hits[i];
    }
  }

  /** When every hit is close, all of them are kept. */
  lemma {:induction false} CloseHitsAll(hits: seq<Hit>)
    requires forall i :: 0 <= i < |hits| ==> hits[i].distance < L2Threshold
    ensures CloseHits(hits) == hits
    decreases |hits|
  {
    if hits != [] {
      CloseHitsAll(hits[..|hits| - 1]);
      assert hits[..|hits| - 1] + [hits[|hits| - 1]] == hits;
    }
  }

  /** The four outcomes of `retrieve_v2`, stated on the distances: any close
      hit rules out the fallback; otherwise the nearest document is used
      below 1.6, the context is empty from 1.6 on, and an empty result
      raises. */
  lemma RetrieveV2Outcomes(hits: seq<Hit>)
    ensures (exists i :: 0 <= i < |hits| && hits[i].distance < L2Threshold) ==>
      FilteredContext(hits) == Ok(Join([NewLine], Docs(CloseHits(hits)))) && CloseHits(hits) != []
    ensures (forall i :: 0 <= i < |hits| ==> hits[i].distance >= L2Threshold) ==>
      && (hits == [] ==> FilteredContext(hits) == Err(IndexError))
      && (hits != [] && hits[0].distance < FallbackThreshold ==> FilteredContext(hits) == Ok(hits[0].document))
      && (hits != [] && hits[0].distance >= FallbackThreshold ==> FilteredContext(hits) == Ok(""))
  {
    CloseHitsEmptyIff(hits);
  }

  /** Three distance profiles: one close hit among
      far ones is kept alone; no close hit but a nearest one below 1.6 gives
      that document; only far hits give the empty context. */
  lemma ThresholdExamples(a: string, b: string, c: string)
    ensures FilteredContext([Hit(a, 0.9), Hit(b, 1.2), Hit(c, 1.3)]) == Ok(a)
    ensures FilteredContext([Hit(a, 1.3), Hit(b, 1.4)]) == Ok(a)
    ensures FilteredContext([Hit(a, 1.8), Hit(b, 1.9)]) == Ok("")
  {
    var h1 := [Hit(a, 0.9), Hit(b, 1.2), Hit(c, 1.3)];
    assert h1[..2][..1] == [Hit(a, 0.9)] && h1[..2] == [Hit(a, 0.9), Hit(b, 1.2)];
    assert [Hit(a, 0.9)][..0] == [];
    assert CloseHits([Hit(a, 0.9)]) == [Hit(a, 0.9)];
    assert CloseHits(h1[..2]) == [Hit(a, 0.9)];
    assert CloseHits(h1) == [Hit(a, 0.9)];
    assert Docs([Hit(a, 0.9)]) == [a];
    var h2 := [Hit(a, 1.3), Hit(b, 1.4)];
    assert h2[..1] == [Hit(a, 1.3)] && h2[..1][..0] == [];
    assert CloseHits(h2) == [];
    var h3 := [Hit(a, 1.8), Hit(b, 1.9)];
    assert h3[..1] == [Hit(a, 1.8)] && h3[..1][..0] == [];
    assert CloseHits(h3) == [];
  }

  /** When every hit is close, `retrieve_v2` gives what `retrieve` gives. */
  lemma AllCloseIsRetrieve(hits: seq<Hit>)
    requires hits != [] && forall i :: 0 <= i < |hits| ==> hits[i].distance < L2Threshold
    ensures FilteredContext(hits) == Ok(Retrieve(hits))
  {
    CloseHitsAll(hits);
  }

  /** The context splits back into the kept documents when none of them
      contains a newline. */
  lemma ContextSplitsBack(hits: seq<Hit>)
    requires CloseHits(hits) != []
    requires forall k :: 0 <= k < |hits| ==> NewLine !in hits[k].document
    ensures FilteredContext(hits).Ok?
    ensures Split(FilteredContext(hits).value, {NewLine}) == Docs(CloseHits(hits))
  {
    var close := CloseHits(hits);
    forall k | 0 <= k < |close| ensures Free(Docs(close)[k], {NewLine}) {
      CloseHitsCount(hits, close[k]);
      CountPositive(close, k);
      var j := CountWitness(hits, close[k]);
    }
    SplitJoin(Docs(close), NewLine, {NewLine});
  }

  /** `retrieve` likewise splits back into every returned document. */
  lemma RetrieveSplitsBack(hits: seq<Hit>)
    requires hits != []
    requires forall k :: 0 <= k < |hits| ==> NewLine !in hits[k].document
    ensures Split(Retrieve(hits), {NewLine}) == Docs(hits)
  {
    SplitJoin(Docs(hits), NewLine, {NewLine});
  }

  /** The loop of `retrieve_v2` over the returned documents, then the fallback. */
  method RetrieveV2(hits: seq<Hit>) returns (r: Result<string>)
    ensures r == FilteredContext(hits)
  {
    var filtered: seq<string> := [];
    for i := 0 to |hits|
      invariant filtered == Docs(CloseHits(hits[..i]))
    {
      assert hits[..i + 1][..i] == hits[..i];
      if hits[i].distance < L2Threshold {
        filtered := filtered + [hits[i].document];
      }
    }
    assert hits[..|hits|] == hits;
    if |filtered| == 0 {
      if |hits| == 0 {
        return Err(IndexError);
      }
      if hits[0].distance < FallbackThreshold {
        filtered := filtered + [hits[0].document];
      }
    }
    r := Ok(Join([NewLine], filtered));
  }
}
