/** Which documents `retrieve` returns and in what order (cmd/query/main.go), told by their positions
  * in the fused listing and in the reranker's reply. */
module RetrieveOrder {
  import opened Options
  import opened Sorting
  import opened Decimal
  import opened Extractive
  import opened Rerank
  import opened Retrieve
  import Fusion

  /** How much of the listing is looked at: at most `n`, but at least the first entry. */
  ghost predicate IsFront(front: nat, total: nat, n: int) {
    && front <= total && (total > 0 ==> front > 0)
    && (front < total ==> front == 1 || front == n) && (front > 1 ==> front <= n)
    && (1 <= n <= total ==> front == n)
  }

  /** `places` are the positions in the front whose document was fetched, in the order of the listing;
    * no fetched one is passed over. */
  ghost predicate FetchedPlaces(places: seq<nat>, r: seq<Fusion.Scored>, front: nat, docs: map<string, Doc>) {
    && front <= |r| && (forall i :: 0 <= i < |places| ==> places[i] < front)
    && (forall i, j :: 0 <= i < j < |places| ==> places[i] < places[j])
    && forall p :: 0 <= p < front ==> (p in places <==> r[p].docId in docs)
  }

  // ---- the fetched ids ----

  lemma {:induction false} FrontOf(ids: seq<string>, n: int)
    ensures IsFront(|CutAt(ids, n)|, |ids|, n) && CutAt(ids, n) == ids[..|CutAt(ids, n)|]
  {
  }

  /** The fused listing, and where in its front the fetched documents stand. */
  lemma {:induction false} FetchedFront(bm25: seq<string>, vec: seq<string>, docs: map<string, Doc>, lim: Limits)
    returns (r: seq<Fusion.Scored>, front: nat, places: seq<nat>)
    ensures Fusion.Listing(r, [bm25, vec], if lim.rrfK <= 0 then 60 else lim.rrfK)
    ensures IsFront(front, |r|, lim.rerankN) && FetchedPlaces(places, r, front, docs)
    ensures var have := Having(FusedIds(bm25, vec, lim), docs);
            |places| == |have| && forall i :: 0 <= i < |have| ==> have[i] == r[places[i]].docId
  {
    r := Fusion.Ranking([bm25, vec], Fusion.Constant(lim.rrfK));
    Fusion.RankingLists([bm25, vec], Fusion.Constant(lim.rrfK));
    var ids := Fusion.Ids(r);
    FrontOf(ids, lim.rerankN);
    front := |CutAt(ids, lim.rerankN)|;
    places := HavingKeeps(CutAt(ids, lim.rerankN), docs);
  }

  // ---- the sources ----

  /** The source at `rank` is made of the document `d`. */
  predicate MadeOf(src: Source, rank: nat, d: Doc) {
    && src.marker == "doc_" + Numeral(rank + 1) && src.docId == d.docId && src.origin == d.source
    && src.text == d.title + ". " + d.body
  }

  /** As many sources as were asked for, or as there are documents. */
  predicate Counted(count: nat, fetched: nat, topK: int, lim: Limits) {
    var want := if topK > 0 then topK else lim.topK;
    count <= fetched && (want >= 0 ==> count <= want) && (count < fetched ==> count == want || (want < 0 && count == 0))
  }

  lemma {:induction false} SourcesMade(sources: seq<Source>, have: seq<string>, order: seq<int>, docs: map<string, Doc>,
                                       topK: int, lim: Limits)
    requires Ranked(sources, have, order, docs, Wanted(topK, lim))
    ensures Counted(|sources|, |have|, topK, lim)
    ensures forall i :: 0 <= i < |sources| ==>
              have[order[i]] in docs && MadeOf(sources[i], i, docs[have[order[i]]])
  {
  }

  ghost predicate Complete(reply: Option<seq<Hit>>, n: nat) {
    reply.Some? && |Order(reply.value, n)| == n
  }

  /** Unless the reranker answered completely, the sources are the fetched documents of the fused front,
    * none passed over, in the order of the listing, that is by score descending and id ascending. */
  lemma {:induction false} FallbackKeepsFusedOrder(sources: seq<Source>, bm25: seq<string>, vec: seq<string>,
                                                   docs: map<string, Doc>, reply: Option<seq<Hit>>, topK: int,
                                                   lim: Limits)
    returns (r: seq<Fusion.Scored>, front: nat, places: seq<nat>)
    requires FromPipeline(sources, bm25, vec, docs, reply, Wanted(topK, lim), lim)
    ensures Fusion.Listing(r, [bm25, vec], if lim.rrfK <= 0 then 60 else lim.rrfK)
    ensures IsFront(front, |r|, lim.rerankN) && FetchedPlaces(places, r, front, docs)
    ensures Counted(|sources|, |places|, topK, lim) && |places| == |Having(FusedIds(bm25, vec, lim), docs)|
    ensures !Complete(reply, |places|) ==>
              forall i :: 0 <= i < |sources| ==>
                r[places[i]].docId in docs && MadeOf(sources[i], i, docs[r[places[i]].docId])
  {
    r, front, places := FetchedFront(bm25, vec, docs, lim);
    var have := Having(FusedIds(bm25, vec, lim), docs);
    SourcesMade(sources, have, FinalOrder(|have|, reply), docs, topK, lim);
    if !Complete(reply, |places|) {
      forall i | 0 <= i < |sources|
        ensures r[places[i]].docId in docs && MadeOf(sources[i], i, docs[r[places[i]].docId])
      {
        assert FinalOrder(|have|, reply)[i] == i && have[i] == r[places[i]].docId;
      }
    }
  }

  /** When it did, they follow the reply's hits by score, equal scores in the order of the reply; a hit
    * names the fetched document by its number in the order of the listing. */
  lemma {:induction false} RerankedOrder(sources: seq<Source>, bm25: seq<string>, vec: seq<string>,
                                         docs: map<string, Doc>, res: seq<Hit>, topK: int, lim: Limits)
    returns (r: seq<Fusion.Scored>, front: nat, places: seq<nat>, ranks: seq<nat>)
    requires FromPipeline(sources, bm25, vec, docs, Some(res), Wanted(topK, lim), lim)
    ensures Fusion.Listing(r, [bm25, vec], if lim.rrfK <= 0 then 60 else lim.rrfK)
    ensures IsFront(front, |r|, lim.rerankN) && FetchedPlaces(places, r, front, docs)
    ensures Counted(|sources|, |places|, topK, lim)
    ensures ByScore(res, |places|, ranks) && (Complete(Some(res), |places|) <==> |ranks| == |places|)
    ensures |ranks| == |places| ==>
              forall i :: 0 <= i < |sources| ==>
                var d := r[places[res[ranks[i]].index]].docId; d in docs && MadeOf(sources[i], i, docs[d])
  {
    r, front, places := FetchedFront(bm25, vec, docs, lim);
    var have := Having(FusedIds(bm25, vec, lim), docs);
    var order := FinalOrder(|have|, Some(res));
    SourcesMade(sources, have, order, docs, topK, lim);
    ranks := OrderByScore(res, |places|);
    if |ranks| == |places| {
      forall i | 0 <= i < |sources|
        ensures var d := r[places[res[ranks[i]].index]].docId; d in docs && MadeOf(sources[i], i, docs[d])
      {
        assert order[i] == res[ranks[i]].index;
        assert have[order[i]] == r[places[order[i]]].docId;
      }
    }
  }

  /** In either case, one document before another in the front has the higher score, or the same score
    * and the lesser id. */
  lemma {:induction false} FusedBefore(r: seq<Fusion.Scored>, lists: seq<seq<string>>, k: int, p: nat, q: nat)
    requires Fusion.Listing(r, lists, k) && p < q < |r|
    ensures var x, y := r[p].docId, r[q].docId;
            || Fusion.Score(lists, k, x) > Fusion.Score(lists, k, y)
            || (Fusion.Score(lists, k, x) == Fusion.Score(lists, k, y) && StrLess(x, y))
  {
    assert r[p] in r && r[q] in r && Fusion.Before(r[p], r[q]);
  }

  /** Two sources of a fallback answer, from an index that stores every document under its own id: the
    * earlier one has the higher fused score, or the same score and the lesser id. */
  lemma {:induction false} FallbackByScore(sources: seq<Source>, bm25: seq<string>, vec: seq<string>,
                                           docs: map<string, Doc>, reply: Option<seq<Hit>>, topK: int, lim: Limits,
                                           i: nat, j: nat)
    requires FromPipeline(sources, bm25, vec, docs, reply, Wanted(topK, lim), lim) && Keyed(docs)
    requires !Complete(reply, |Having(FusedIds(bm25, vec, lim), docs)|) && i < j < |sources|
    ensures var k, x, y := if lim.rrfK <= 0 then 60 else lim.rrfK, sources[i].docId, sources[j].docId;
            || Fusion.Score([bm25, vec], k, x) > Fusion.Score([bm25, vec], k, y)
            || (Fusion.Score([bm25, vec], k, x) == Fusion.Score([bm25, vec], k, y) && StrLess(x, y))
  {
    var r, front, places := FallbackKeepsFusedOrder(sources, bm25, vec, docs, reply, topK, lim);
    assert places[i] < places[j] < |r|;
    FusedBefore(r, [bm25, vec], if lim.rrfK <= 0 then 60 else lim.rrfK, places[i], places[j]);
  }
}
