/** The ranking pipeline of `retrieve` in cmd/query/main.go, from the two result lists to the
  * sources of an answer. The stores' and the reranker's replies are parameters. */
module Retrieve {
  import opened Options
  import opened Sorting
  import opened Decimal
  import opened Sentences
  import opened Markers
  import opened Tokens
  import opened Extractive
  import opened Citations
  import opened Rerank
  import Fusion

  datatype Doc = Doc(docId: string, source: string, title: string, body: string)

  datatype Limits = Limits(rrfK: int, rerankN: int, topK: int)

  /** An error comes from fetching the content; every other fault degrades. */
  datatype Outcome = Fault | Sources(sources: seq<Source>)

  // ---- what the steps compute ----

  function Min(a: int, b: int): int {
    if a < b then a else b
  }

  /** The cut is made after appending, so one id always gets through. */
  function CutAt(ids: seq<string>, n: int): seq<string> {
    if |ids| <= n then ids else if n > 0 then ids[..n] else ids[..Min(1, |ids|)]
  }

  function FusedIds(bm25: seq<string>, vec: seq<string>, lim: Limits): seq<string> {
    CutAt(Fusion.Ids(Fusion.Ranking([bm25, vec], Fusion.Constant(lim.rrfK))), lim.rerankN)
  }

  function Having(ids: seq<string>, docs: map<string, Doc>): seq<string> {
    if ids == [] then []
    else
      var last := |ids| - 1;
      Having(ids[..last], docs) + if ids[last] in docs then [ids[last]] else []
  }

  function Identity(n: nat): seq<int> {
    seq(n, i => i)
  }

  /** The reranker's order when it answers for every document, the fused order otherwise. */
  function FinalOrder(n: nat, reply: Option<seq<Hit>>): seq<int> {
    if reply.Some? && |Order(reply.value, n)| == n then Order(reply.value, n) else Identity(n)
  }

  function Wanted(topK: int, lim: Limits): int {
    if topK <= 0 then lim.topK else topK
  }

  function SourceFor(rank: nat, d: Doc): Source {
    Source(Marker(rank + 1), d.docId, d.source, d.title + ". " + d.body)
  }

  lemma {:induction false} FinalOrderInRange(n: nat, reply: Option<seq<Hit>>, i: nat)
    ensures |FinalOrder(n, reply)| == n && (i < n ==> 0 <= FinalOrder(n, reply)[i] < n)
  {
    if reply.Some? && |Order(reply.value, n)| == n && i < n {
      OrderInRange(reply.value, n, i);
    }
  }

  lemma {:induction false} HavingOnly(ids: seq<string>, docs: map<string, Doc>)
    ensures forall id :: id in Having(ids, docs) <==> id in ids && id in docs
  {
    if ids != [] {
      HavingOnly(ids[..|ids| - 1], docs);
      assert ids == ids[..|ids| - 1] + [ids[|ids| - 1]];
    }
  }

  /** `have` are the ids at `places`, in the order of the list: all those with content. */
  ghost predicate KeptAt(ids: seq<string>, docs: map<string, Doc>, places: seq<nat>, have: seq<string>) {
    && |places| == |have| && (forall i, j :: 0 <= i < j < |places| ==> places[i] < places[j])
    && (forall i :: 0 <= i < |places| ==> places[i] < |ids| && have[i] == ids[places[i]])
    && forall p :: 0 <= p < |ids| ==> (p in places <==> ids[p] in docs)
  }

  lemma {:induction false} KeptMore(ids: seq<string>, docs: map<string, Doc>, places: seq<nat>, have: seq<string>)
    requires ids != [] && KeptAt(ids[..|ids| - 1], docs, places, have)
    ensures var n := |ids| - 1;
            if ids[n] in docs then KeptAt(ids, docs, places + [n], have + [ids[n]]) else KeptAt(ids, docs, places, have)
  {
    var n := |ids| - 1;
    assert forall p :: 0 <= p < n ==> ids[..n][p] == ids[p];
    assert n !in places;
  }

  lemma {:induction false} HavingKeeps(ids: seq<string>, docs: map<string, Doc>) returns (places: seq<nat>)
    ensures KeptAt(ids, docs, places, Having(ids, docs))
  {
    places := [];
    if ids != [] {
      var n := |ids| - 1;
      var front := HavingKeeps(ids[..n], docs);
      KeptMore(ids, docs, front, Having(ids[..n], docs));
      places := if ids[n] in docs then front + [n] else front;
      assert Having(ids[..n], docs) + [] == Having(ids[..n], docs);
    }
  }

  // ---- the steps ----

  /** Step 3: the front of the fused list. */
  method TakeIds(fused: seq<Fusion.Scored>, n: int) returns (ids: seq<string>)
    ensures ids == CutAt(Fusion.Ids(fused), n)
  {
    ids := [];
    var all := Fusion.Ids(fused);
    for i := 0 to |fused|
      invariant ids == all[..i] && (i == 0 || i < n)
    {
      ids := ids + [fused[i].docId];
      if |ids| >= n {
        break;
      }
    }
  }

  /** Step 4: the ids with content, in fused order. */
  method KeepFetched(ids: seq<string>, docs: map<string, Doc>) returns (have: seq<string>)
    ensures have == Having(ids, docs) && exists places :: KeptAt(ids, docs, places, have)
    ensures forall id :: id in have <==> id in ids && id in docs
  {
    have := [];
    for i := 0 to |ids|
      invariant have == Having(ids[..i], docs)
    {
      assert ids[..i + 1][..i] == ids[..i];
      if ids[i] in docs {
        have := have + [ids[i]];
      }
    }
    assert ids[..|ids|] == ids;
    HavingOnly(ids, docs);
    ghost var places := HavingKeeps(ids, docs);
  }

  /** Step 5: the reranker's order is used only when it is complete. */
  method Reorder(n: nat, reply: Option<seq<Hit>>) returns (order: seq<int>)
    ensures order == FinalOrder(n, reply) && |order| == n && forall i :: 0 <= i < n ==> 0 <= order[i] < n
  {
    order := seq(n, i => i);
    if reply.Some? {
      var _, ord := Rerank.Rerank(n, reply.value);
      if |ord| == n {
        order := ord;
      }
    }
    forall i | 0 <= i < n ensures 0 <= order[i] < n {
      FinalOrderInRange(n, reply, i);
    }
  }

  /** Step 6: the sources, at most `topK` of them. */
  method Assemble(have: seq<string>, order: seq<int>, docs: map<string, Doc>, topK: int) returns (sources: seq<Source>)
    requires forall i :: 0 <= i < |order| ==> 0 <= order[i] < |have|
    requires forall id :: id in have ==> id in docs
    ensures |sources| == if topK <= 0 then 0 else Min(|order|, topK)
    ensures forall i :: 0 <= i < |sources| ==> sources[i] == SourceFor(i, docs[have[order[i]]])
  {
    sources := [];
    for i := 0 to |order|
      invariant |sources| == i && (i > 0 ==> i <= topK)
      invariant forall n :: 0 <= n < i ==> sources[n] == SourceFor(n, docs[have[order[n]]])
    {
      if i >= topK {
        break;
      }
      var id := have[order[i]];
      assert id in have;
      sources := sources + [SourceFor(|sources|, docs[id])];
    }
  }

  /** The i-th source is built from the document at place order[i] of the fetched ids. */
  ghost predicate Ranked(sources: seq<Source>, have: seq<string>, order: seq<int>, docs: map<string, Doc>, topK: int) {
    && |order| == |have| && (forall i :: 0 <= i < |order| ==> 0 <= order[i] < |have|)
    && (forall id :: id in have ==> id in docs)
    && |sources| == (if topK <= 0 then 0 else Min(|have|, topK))
    && forall i :: 0 <= i < |sources| ==> have[order[i]] in docs && sources[i] == SourceFor(i, docs[have[order[i]]])
  }

  /** Steps 4 to 6, once the content is there. */
  method FromContent(ids: seq<string>, docs: map<string, Doc>, reply: Option<seq<Hit>>, want: int)
    returns (sources: seq<Source>)
    ensures var have := Having(ids, docs); Ranked(sources, have, FinalOrder(|have|, reply), docs, want)
  {
    var have := KeepFetched(ids, docs);
    if |have| == 0 {
      return [];
    }
    var order := Reorder(|have|, reply);
    sources := Assemble(have, order, docs, want);
  }

  ghost predicate FromPipeline(sources: seq<Source>, bm25: seq<string>, vec: seq<string>, docs: map<string, Doc>,
                               reply: Option<seq<Hit>>, want: int, lim: Limits) {
    var have := Having(FusedIds(bm25, vec, lim), docs);
    Ranked(sources, have, FinalOrder(|have|, reply), docs, want)
  }

  /** `fetched` is the reply to the content request, `reply` that of the reranker. */
  method Retrieve(bm25: seq<string>, vec: seq<string>, fetched: Option<map<string, Doc>>, reply: Option<seq<Hit>>,
                  topK: int, lim: Limits)
    returns (r: Outcome)
    ensures r.Fault? <==> FusedIds(bm25, vec, lim) != [] && fetched.None?
    ensures FusedIds(bm25, vec, lim) == [] ==> r == Sources([])
    ensures r.Sources? && fetched.Some? ==>
              FromPipeline(r.sources, bm25, vec, fetched.value, reply, Wanted(topK, lim), lim)
  {
    var fused := Fusion.RRF([bm25, vec], lim.rrfK);
    if |fused| == 0 {
      return Sources([]);
    }
    var ids := TakeIds(fused, lim.rerankN);
    if fetched.None? {
      return Fault;
    }
    var sources := FromContent(ids, fetched.value, reply, Wanted(topK, lim));
    r := Sources(sources);
  }

  // ---- what the pipeline promises ----

  lemma {:induction false} FusedDistinct(bm25: seq<string>, vec: seq<string>, lim: Limits)
    ensures Distinct(FusedIds(bm25, vec, lim))
    ensures forall id :: id in FusedIds(bm25, vec, lim) ==> id in bm25 || id in vec
  {
    var k := Fusion.Constant(lim.rrfK);
    Fusion.RankingLists([bm25, vec], k);
    Fusion.ListingIds(Fusion.Ranking([bm25, vec], k), [bm25, vec], k);
    CutDistinct(Fusion.Ids(Fusion.Ranking([bm25, vec], k)), lim.rerankN);
  }

  lemma {:induction false} CutDistinct(ids: seq<string>, n: int)
    requires Distinct(ids)
    ensures Distinct(CutAt(ids, n)) && forall id :: id in CutAt(ids, n) ==> id in ids
  {
  }

  lemma {:induction false} HavingDistinct(ids: seq<string>, docs: map<string, Doc>)
    requires Distinct(ids)
    ensures Distinct(Having(ids, docs))
  {
    if ids != [] {
      var last := |ids| - 1;
      HavingDistinct(ids[..last], docs);
      HavingOnly(ids[..last], docs);
      assert ids[last] !in ids[..last];
    }
  }

  /** The index stores every document under its own id. */
  ghost predicate Keyed(docs: map<string, Doc>) {
    forall id :: id in docs ==> docs[id].docId == id
  }

  ghost predicate DistinctDocs(sources: seq<Source>) {
    forall i, j :: 0 <= i < j < |sources| ==> sources[i].docId != sources[j].docId
  }

  lemma {:induction false} DistinctPlaces(sources: seq<Source>, have: seq<string>, order: seq<int>, docs: map<string,
                                          Doc>, topK: int)
    requires Ranked(sources, have, order, docs, topK) && Keyed(docs) && Distinct(have)
    ensures DistinctDocs(sources) <==> Distinct(order[..|sources|])
  {
    forall i, j | 0 <= i < j < |sources|
      ensures sources[i].docId == sources[j].docId <==> order[i] == order[j]
    {
      assert sources[i].docId == have[order[i]] && sources[j].docId == have[order[j]];
    }
    var used := order[..|sources|];
    assert forall i :: 0 <= i < |used| ==> used[i] == order[i];
  }

  lemma {:induction false} MarkersDiffer(sources: seq<Source>)
    requires forall i :: 0 <= i < |sources| ==> sources[i].marker == Marker(i + 1)
    ensures DistinctMarkers(sources) && forall i :: 0 <= i < |sources| ==> IsMarker(sources[i].marker)
  {
    forall i | 0 <= i < |sources| ensures IsMarker(sources[i].marker) {
      MarkerIsMarker(i + 1);
    }
    forall i, j | 0 <= i < j < |sources| ensures sources[i].marker != sources[j].marker {
      assert Marker(i + 1)[4..] == Numeral(i + 1) && Marker(j + 1)[4..] == Numeral(j + 1);
      NumeralRoundTrip(i + 1);
      NumeralRoundTrip(j + 1);
    }
  }

  lemma {:induction false} HaveDistinct(bm25: seq<string>, vec: seq<string>, docs: map<string, Doc>, lim: Limits)
    ensures Distinct(Having(FusedIds(bm25, vec, lim), docs))
  {
    FusedDistinct(bm25, vec, lim);
    HavingDistinct(FusedIds(bm25, vec, lim), docs);
  }

  lemma {:induction false} FinalOrderPermutes(n: nat, reply: Option<seq<Hit>>)
    ensures Permutation(FinalOrder(n, reply), n) <==>
            (reply.Some? && |Order(reply.value, n)| == n ==> RepeatsNone(reply.value, n))
  {
    if reply.Some? && |Order(reply.value, n)| == n {
      OrderPermutes(reply.value, n);
    } else {
      IdentityPermutes(n);
    }
  }

  lemma {:induction false} IdentityPermutes(n: nat)
    ensures Permutation(Identity(n), n)
  {
    forall i | 0 <= i < n ensures i in Identity(n) {
      assert Identity(n)[i] == i;
    }
  }

  lemma {:induction false} FrontDistinct(order: seq<int>, m: nat)
    requires Distinct(order) && m <= |order|
    ensures Distinct(order[..m])
  {
  }

  /** Where each source comes from: a fetched id of the fused front, with the next marker. */
  lemma {:induction false} SourceOrigin(sources: seq<Source>, bm25: seq<string>, vec: seq<string>, docs: map<string,
                                        Doc>, reply: Option<seq<Hit>>, want: int, lim: Limits, i: nat)
    requires FromPipeline(sources, bm25, vec, docs, reply, want, lim) && Keyed(docs) && i < |sources|
    ensures sources[i].docId in FusedIds(bm25, vec, lim) && sources[i].docId in docs
    ensures sources[i].marker == Marker(i + 1)
    ensures sources[i].text == docs[sources[i].docId].title + ". " + docs[sources[i].docId].body
    ensures i < want
  {
    var have := Having(FusedIds(bm25, vec, lim), docs);
    HavingOnly(FusedIds(bm25, vec, lim), docs);
    assert have[FinalOrder(|have|, reply)[i]] in have;
  }

  /** Unless a complete reply repeats an index, no document is returned twice. */
  lemma {:induction false} RetrievesDistinctDocs(sources: seq<Source>, bm25: seq<string>, vec: seq<string>,
                                                 docs: map<string, Doc>, reply: Option<seq<Hit>>, want: int,
                                                 lim: Limits)
    requires FromPipeline(sources, bm25, vec, docs, reply, want, lim) && Keyed(docs)
    requires var n := |Having(FusedIds(bm25, vec, lim), docs)|; reply.Some? && |Order(reply.value, n)| == n ==>
               RepeatsNone(reply.value, n)
    ensures DistinctDocs(sources)
  {
    var have := Having(FusedIds(bm25, vec, lim), docs);
    HaveDistinct(bm25, vec, docs, lim);
    FinalOrderPermutes(|have|, reply);
    FrontDistinct(FinalOrder(|have|, reply), |sources|);
    DistinctPlaces(sources, have, FinalOrder(|have|, reply), docs, want);
  }

  /** When nothing is cut off, that condition is also necessary, and then every fetched document
    * is returned. */
  lemma {:induction false} DistinctExactly(sources: seq<Source>, bm25: seq<string>, vec: seq<string>, docs: map<string,
                                           Doc>, reply: Option<seq<Hit>>, want: int, lim: Limits)
    requires FromPipeline(sources, bm25, vec, docs, reply, want, lim) && Keyed(docs)
    requires want >= |Having(FusedIds(bm25, vec, lim), docs)|
    ensures var n := |Having(FusedIds(bm25, vec, lim), docs)|;
            DistinctDocs(sources) <==> (reply.Some? && |Order(reply.value, n)| == n ==> RepeatsNone(reply.value, n))
  {
    var have := Having(FusedIds(bm25, vec, lim), docs);
    var order := FinalOrder(|have|, reply);
    HaveDistinct(bm25, vec, docs, lim);
    FinalOrderPermutes(|have|, reply);
    DistinctPlaces(sources, have, order, docs, want);
    assert |sources| == |have| && order[..|sources|] == order;
    if reply.Some? && |Order(reply.value, |have|)| == |have| {
      OrderDistinct(reply.value, |have|);
    }
  }

  /** With a complete reply that repeats nothing they come by descending rerank score. */
  lemma {:induction false} RerankedByScore(sources: seq<Source>, bm25: seq<string>, vec: seq<string>, docs: map<string,
                                           Doc>, res: seq<Hit>, want: int, lim: Limits, i: nat, j: nat)
    requires FromPipeline(sources, bm25, vec, docs, Some(res), want, lim) && Keyed(docs) && i < j < |sources|
    requires var n := |Having(FusedIds(bm25, vec, lim), docs)|; |Order(res, n)| == n && RepeatsNone(res, n)
    ensures var have := Having(FusedIds(bm25, vec, lim), docs);
            exists a, b :: 0 <= a < |have| && 0 <= b < |have| && have[a] == sources[i].docId &&
              have[b] == sources[j].docId
                           && Written(Sort(res, Higher), a) >= Written(Sort(res, Higher), b)
  {
    var have := Having(FusedIds(bm25, vec, lim), docs);
    var order := Order(res, |have|);
    OrderDescends(res, |have|, i, j);
    var a, b := order[i], order[j];
    assert have[a] == sources[i].docId && have[b] == sources[j].docId;
  }

  // ---- from retrieval to a faithful, citable answer ----

  lemma {:induction false} PipelineShape(sources: seq<Source>, bm25: seq<string>, vec: seq<string>, docs: map<string,
                                         Doc>, reply: Option<seq<Hit>>, want: int, lim: Limits)
    requires FromPipeline(sources, bm25, vec, docs, reply, want, lim) && Keyed(docs)
    ensures DistinctMarkers(sources)
    ensures forall i :: 0 <= i < |sources| ==> IsMarker(sources[i].marker) && Split(sources[i].text) != []
  {
    forall i | 0 <= i < |sources| ensures sources[i].marker == Marker(i + 1) && Split(sources[i].text) != [] {
      SourceOrigin(sources, bm25, vec, docs, reply, want, lim, i);
      TitledTextSplits(docs[sources[i].docId].title, docs[sources[i].docId].body);
    }
    MarkersDiffer(sources);
  }

  /** Whatever the stores and the reranker reply, an answer generated from the retrieved sources
    * is faithful and its citations read back, provided no document's own text mentions a marker. */
  lemma {:induction false} RetrievedAnswersAreFaithful(query: string, sources: seq<Source>, bm25: seq<string>,
                                                       vec: seq<string>, docs: map<string, Doc>,
                                                       reply: Option<seq<Hit>>, want: int, lim: Limits)
    requires FromPipeline(sources, bm25, vec, docs, reply, want, lim) && Keyed(docs)
    requires Candidates(ContentTokens(query), sources) != []
    ensures (forall i :: 0 <= i < |sources| ==> NoMark(sources[i].text)) ==>
              Faithfulness(Compose(query, sources), sources) == Verdict(1.0, [])
    ensures (forall i :: 0 <= i < |sources| ==> NoRef(sources[i].text)) ==>
              forall x :: x in CitationsFromText(Compose(query, sources), sources) <==>
                          x.marker in CiteMap(Chosen(query, sources)) && x == CiteMap(Chosen(query, sources))[x.marker]
  {
    PipelineShape(sources, bm25, vec, docs, reply, want, lim);
    if forall i :: 0 <= i < |sources| ==> NoMark(sources[i].text) {
      FaithfulByConstruction(query, sources);
    }
    if forall i :: 0 <= i < |sources| ==> NoRef(sources[i].text) {
      forall x ensures x in CitationsFromText(Compose(query, sources), sources) <==>
                       x.marker in CiteMap(Chosen(query, sources)) && x == CiteMap(Chosen(query, sources))[x.marker] {
        CitationRoundTrip(query, sources, x);
      }
    }
  }
}
