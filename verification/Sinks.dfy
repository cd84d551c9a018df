/** The stateful clients of the indexer: the guard (internal/idempotency/guard.go), the
  * OpenSearch bulk client (internal/opensearch/opensearch.go), the Qdrant client
  * (internal/qdrant/qdrant.go) and the generation counters (internal/cache/cache.go). */
module Sinks {
  import opened Contract
  import opened Stores
  import Protocol

  class Guard {
    var seen: map<string, int>

    constructor ()
      ensures seen == map[]
    {
      seen := map[];
    }

    method ShouldApply(docId: string, version: int) returns (ok: bool)
      ensures ok <==> docId !in seen || version > seen[docId]
    {
      if docId !in seen {
        return true;
      }
      return version > seen[docId];
    }

    /** Only ever advances the remembered version. */
    method Commit(docId: string, version: int)
      modifies this
      ensures seen.Keys == old(seen.Keys) + {docId}
      ensures seen[docId] == if docId in old(seen) && old(seen[docId]) > version then old(seen[docId]) else version
      ensures forall id :: id in old(seen) && id != docId ==> seen[id] == old(seen[id])
    {
      if docId !in seen || version > seen[docId] {
        seen := seen[docId := version];
      }
    }
  }

  /** The environment's part in one bulk request: the items the cluster fails on, and whether
    * the response is lost after the cluster has done its work. */
  datatype BulkFaults = BulkFaults(failed: set<nat>, lost: bool)

  datatype BulkResult = Applied(ids: set<string>) | BulkError

  /** The items the cluster does process. */
  function Processed(docs: seq<CanonicalDoc>, failed: set<nat>): seq<CanonicalDoc> {
    if docs == [] then []
    else Processed(docs[..|docs| - 1], failed) + (if |docs| - 1 in failed then [] else [docs[|docs| - 1]])
  }

  /** The ids whose stored version moved. */
  function Advanced(os: Store, os': Store): set<string> {
    set id | id in os' && (id !in os || os[id].version < os'[id].version)
  }

  /** The status the cluster answers with when it processes `d` under external versioning. */
  function Status(os: Store, d: CanonicalDoc): nat {
    if !Fresh(os, d) then 409
    else if d.op != Delete then (if d.docId in os && os[d.docId].op != Delete then 200 else 201)
    else if d.docId in os && os[d.docId].op != Delete then 200
    else 404
  }

  class OpenSearch {
    var docs: Store

    constructor ()
      ensures docs == map[]
    {
      docs := map[];
    }

    /** The cluster's side of `_bulk`: items in order, one status each. */
    method Process(items: seq<CanonicalDoc>, failed: set<nat>) returns (statuses: seq<nat>)
      modifies this
      ensures docs == PutAll(old(docs), Processed(items, failed)) && Answers(old(docs), items, failed, statuses)
    {
      statuses := [];
      var i := 0;
      while i < |items|
        invariant 0 <= i <= |items| && |statuses| == i
        invariant docs == PutAll(old(docs), Processed(items[..i], failed))
        invariant forall j {:trigger statuses[j]} :: 0 <= j < i ==>
                    statuses[j] == if j in failed then 503
                                   else Status(PutAll(old(docs), Processed(items[..j], failed)), items[j])
      {
        ProcessedStep(old(docs), items, i, failed);
        if i in failed {
          statuses := statuses + [503];
        } else {
          statuses := statuses + [Status(docs, items[i])];
          docs := Put(docs, items[i]);
        }
        i := i + 1;
      }
      assert items[..i] == items;
    }

    /** The client's side: what the caller may propagate is exactly what moved in the index, and
      * an error is reported exactly when the cluster failed somewhere. */
    method Bulk(items: seq<CanonicalDoc>, env: BulkFaults) returns (r: BulkResult)
      modifies this
      ensures docs == PutAll(old(docs), Processed(items, env.failed))
      ensures r.BulkError? <==> items != [] && (env.lost || exists i :: 0 <= i < |items| && i in env.failed)
      ensures r.Applied? ==> r.ids == Advanced(old(docs), docs)
    {
      if items == [] {
        return Applied({});
      }
      var statuses := Process(items, env.failed);
      if env.lost {
        return BulkError;
      }
      r := Classify(old(docs), items, statuses, env.failed);
    }
  }

  /** The statuses a cluster holding `os` answers a request with. */
  ghost predicate Answers(os: Store, items: seq<CanonicalDoc>, failed: set<nat>, statuses: seq<nat>) {
    |statuses| == |items| &&
    forall i {:trigger statuses[i]} :: 0 <= i < |items| ==>
      statuses[i] == if i in failed then 503 else Status(PutAll(os, Processed(items[..i], failed)), items[i])
  }

  /** Reading the answers: 2xx, and 404 on a delete, count as applied; 409 is skipped; anything
    * else is an error. What comes out is what moved. */
  method Classify(ghost os: Store, items: seq<CanonicalDoc>, statuses: seq<nat>, ghost failed: set<nat>)
    returns (r: BulkResult)
    requires Answers(os, items, failed, statuses)
    ensures r.BulkError? <==> exists i :: 0 <= i < |items| && i in failed
    ensures r.Applied? ==> r.ids == Advanced(os, PutAll(os, Processed(items, failed)))
  {
    var applied: set<string> := {};
    var i := 0;
    NothingAdvanced(os, items, failed);
    while i < |statuses|
      invariant 0 <= i <= |items|
      invariant forall j :: 0 <= j < i ==> j !in failed
      invariant applied == Advanced(os, PutAll(os, Processed(items[..i], failed)))
    {
      var status, docId := statuses[i], items[i].docId;
      ClassifyStep(os, items, i, failed, status, applied);
      if status < 300 || (status == 404 && items[i].op == Delete) {
        applied := applied + {docId};
      } else if status != 409 {
        return BulkError;
      }
      i := i + 1;
    }
    assert items[..i] == items;
    return Applied(applied);
  }

  lemma {:induction false} NothingAdvanced(os: Store, items: seq<CanonicalDoc>, failed: set<nat>)
    ensures Advanced(os, PutAll(os, Processed(items[..0], failed))) == {}
  {
    assert items[..0] == [];
  }

  lemma {:induction false} ClassifyStep(os: Store, items: seq<CanonicalDoc>, i: nat, failed: set<nat>, status: nat,
                                        applied: set<string>)
    requires i < |items| && applied == Advanced(os, PutAll(os, Processed(items[..i], failed)))
    requires status == if i in failed then 503 else Status(PutAll(os, Processed(items[..i], failed)), items[i])
    ensures var taken := status < 300 || (status == 404 && items[i].op == Delete);
            var next := Advanced(os, PutAll(os, Processed(items[..i + 1], failed)));
            if i in failed then !taken && status != 409
            else if taken then next == applied + {items[i].docId}
            else status == 409 && next == applied
  {
    ProcessedStep(os, items, i, failed);
    PutAllGrows(os, Processed(items[..i], failed));
    AdvancedStep(os, PutAll(os, Processed(items[..i], failed)), items[i]);
  }

  lemma {:induction false} ProcessedStep(os: Store, items: seq<CanonicalDoc>, i: nat, failed: set<nat>)
    requires i < |items|
    ensures var before := PutAll(os, Processed(items[..i], failed));
            PutAll(os, Processed(items[..i + 1], failed)) == if i in failed then before else Put(before, items[i])
  {
    var next := items[..i + 1];
    assert next[..|next| - 1] == items[..i] && next[|next| - 1] == items[i];
    var docs := Processed(items[..i], failed);
    assert Processed(next, failed) == docs + (if i in failed then [] else [items[i]]);
    if i in failed {
      assert docs + [] == docs;
    } else {
      var more := docs + [items[i]];
      assert more[..|more| - 1] == docs && more[|more| - 1] == items[i];
    }
  }

  lemma {:induction false} PutAllGrows(os: Store, docs: seq<CanonicalDoc>)
    ensures Grows(os, PutAll(os, docs))
  {
    if docs != [] {
      PutAllGrows(os, docs[..|docs| - 1]);
    }
  }

  lemma {:induction false} AdvancedStep(os: Store, mid: Store, d: CanonicalDoc)
    ensures Grows(os, mid) ==>
              Advanced(os, Put(mid, d)) == if Fresh(mid, d) then Advanced(os, mid) + {d.docId} else Advanced(os, mid)
  {
  }

  /** A vector with its payload; the vector is a function of the embedded text. */
  datatype Point = Point(docId: string, source: string, tenantId: int, category: string, version: int, text: string)

  type Points = map<Uuid, Point>

  function PointOf(d: CanonicalDoc): Point {
    Point(d.docId, d.source, d.tenantId, d.category, d.version, Text(d))
  }

  /** The point carries the document's own particulars, and the embedded text is its title, its body,
    * or both with an empty line between them. */
  predicate Shows(p: Point, d: CanonicalDoc) {
    && p.docId == d.docId && p.source == d.source && p.tenantId == d.tenantId && p.category == d.category
    && p.version == d.version
    && (d.title == "" ==> p.text == d.body) && (d.body == "" ==> p.text == d.title)
    && (d.title != "" && d.body != "" ==> p.text == d.title + "\n\n" + d.body)
  }

  /** Every point sits under the id derived from its own document id. */
  ghost predicate WellPointed(points: Points) {
    forall u :: u in points ==> u == PointId(points[u].docId)
  }

  function Overwrite(points: Points, docs: seq<CanonicalDoc>): Points {
    if docs == [] then points
    else Overwrite(points, docs[..|docs| - 1])[PointId(docs[|docs| - 1].docId) := PointOf(docs[|docs| - 1])]
  }

  /** No later document has the id of the `k`-th. */
  ghost predicate LastOfId(docs: seq<CanonicalDoc>, k: nat) {
    k < |docs| && forall j :: k < j < |docs| ==> docs[j].docId != docs[k].docId
  }

  ghost predicate ShownAt(after: Points, d: CanonicalDoc) {
    PointId(d.docId) in after && Shows(after[PointId(d.docId)], d)
  }

  ghost predicate NoneNamed(docs: seq<CanonicalDoc>, id: string) {
    forall k :: 0 <= k < |docs| ==> docs[k].docId != id
  }

  ghost predicate SamePoint(points: Points, after: Points, u: Uuid) {
    (u in after <==> u in points) && (u in points ==> after[u] == points[u])
  }

  /** Each point shows the last of the documents with its id; points of other documents stay. */
  ghost predicate LastShown(points: Points, docs: seq<CanonicalDoc>, after: Points) {
    && (forall k :: 0 <= k < |docs| && LastOfId(docs, k) ==> ShownAt(after, docs[k]))
    && (forall id :: NoneNamed(docs, id) ==> SamePoint(points, after, PointId(id)))
  }

  lemma {:induction false} ShowsOne(points: Points, d: CanonicalDoc)
    ensures ShownAt(points[PointId(d.docId) := PointOf(d)], d)
  {
  }

  lemma {:induction false} KeepsOthers(points: Points, d: CanonicalDoc, id: string)
    requires id != d.docId
    ensures SamePoint(points, points[PointId(d.docId) := PointOf(d)], PointId(id))
  {
  }

  lemma {:induction false} SameShown(points: Points, after: Points, d: CanonicalDoc)
    requires SamePoint(points, after, PointId(d.docId)) && ShownAt(points, d)
    ensures ShownAt(after, d)
  {
  }

  lemma {:induction false} ShowsNext(points: Points, docs: seq<CanonicalDoc>, mid: Points, k: nat)
    requires docs != [] && LastShown(points, docs[..|docs| - 1], mid) && LastOfId(docs, k)
    ensures var last := docs[|docs| - 1];
            ShownAt(mid[PointId(last.docId) := PointOf(last)], docs[k])
  {
    var n := |docs| - 1;
    var front, last := docs[..n], docs[n];
    if k < n {
      assert last.docId != docs[k].docId && front[k] == docs[k];
      assert LastOfId(front, k) && ShownAt(mid, front[k]);
      KeepsOthers(mid, last, docs[k].docId);
      SameShown(mid, mid[PointId(last.docId) := PointOf(last)], docs[k]);
    } else {
      ShowsOne(mid, last);
    }
  }

  lemma {:induction false} KeepsNext(points: Points, docs: seq<CanonicalDoc>, mid: Points, id: string)
    requires docs != [] && LastShown(points, docs[..|docs| - 1], mid) && NoneNamed(docs, id)
    ensures var last := docs[|docs| - 1];
            SamePoint(points, mid[PointId(last.docId) := PointOf(last)], PointId(id))
  {
    var n := |docs| - 1;
    assert docs[n].docId != id && NoneNamed(docs[..n], id);
    KeepsOthers(mid, docs[n], id);
  }

  lemma {:induction false} OverwriteShows(points: Points, docs: seq<CanonicalDoc>)
    ensures LastShown(points, docs, Overwrite(points, docs))
  {
    if docs != [] {
      var mid := Overwrite(points, docs[..|docs| - 1]);
      OverwriteShows(points, docs[..|docs| - 1]);
      forall k | 0 <= k < |docs| && LastOfId(docs, k) ensures ShownAt(Overwrite(points, docs), docs[k]) {
        ShowsNext(points, docs, mid, k);
      }
      forall id | NoneNamed(docs, id) ensures SamePoint(points, Overwrite(points, docs), PointId(id)) {
        KeepsNext(points, docs, mid, id);
      }
    }
  }

  class Qdrant {
    var points: Points

    constructor ()
      ensures points == map[]
    {
      points := map[];
    }

    /** Same id, same point: a later upsert overwrites. */
    method Upsert(docs: seq<CanonicalDoc>)
      modifies this
      ensures points == Overwrite(old(points), docs)
      ensures LastShown(old(points), docs, points)
    {
      var i := 0;
      while i < |docs|
        invariant 0 <= i <= |docs| && points == Overwrite(old(points), docs[..i])
      {
        assert docs[..i + 1][..i] == docs[..i];
        points := points[PointId(docs[i].docId) := PointOf(docs[i])];
        i := i + 1;
      }
      assert docs[..i] == docs;
      OverwriteShows(old(points), docs);
    }

    /** Removes by payload: every point carrying one of the ids, and no other. */
    method DeleteByDocIds(ids: seq<string>)
      modifies this
      ensures points.Keys <= old(points.Keys)
      ensures forall u :: u in old(points) ==> (u in points <==> old(points)[u].docId !in ids)
      ensures forall u :: u in points ==> points[u] == old(points)[u]
    {
      if ids == [] {
        return;
      }
      var should: set<string> := {};
      for i := 0 to |ids|
        invariant forall id :: id in should <==> id in ids[..i]
      {
        assert ids[..i + 1] == ids[..i] + [ids[i]];
        should := should + {ids[i]};
      }
      assert ids[..|ids|] == ids;
      points := map u | u in points && points[u].docId !in should :: points[u];
    }
  }

  /** Per-tenant cache generations in Redis. */
  class Generations {
    var gens: map<int, nat>

    constructor ()
      ensures gens == map[]
    {
      gens := map[];
    }

    /** Best effort: an unreachable Redis leaves the counter where it was. */
    method BumpGeneration(tenant: int, ok: bool)
      modifies this
      ensures var before := if tenant in old(gens) then old(gens)[tenant] else 0;
              gens == if ok then old(gens)[tenant := before + 1] else old(gens)
    {
      if ok {
        gens := gens[tenant := (if tenant in gens then gens[tenant] else 0) + 1];
      }
    }
  }
}
