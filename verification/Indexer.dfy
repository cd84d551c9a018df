/** `apply` and the lane loop of cmd/indexer/main.go, run to completion by one lane. */
module Indexer {
  import opened Sets
  import opened Contract
  import opened Stores
  import opened Sinks
  import Protocol
  import Safety

  // ---- the sinks fed one record at a time ----

  datatype Stored = Stored(os: Store, points: Points)

  function VectorPut(points: Points, d: CanonicalDoc): Points {
    if d.op == Delete then points - {PointId(d.docId)} else points[PointId(d.docId) := PointOf(d)]
  }

  /** A single record applied alone: whatever OpenSearch takes, Qdrant gets. */
  function ApplyOne(s: Stored, d: CanonicalDoc): Stored {
    if Fresh(s.os, d) then Stored(Put(s.os, d), VectorPut(s.points, d)) else s
  }

  function ApplyEach(s: Stored, docs: seq<CanonicalDoc>): Stored {
    if docs == [] then s else ApplyOne(ApplyEach(s, docs[..|docs| - 1]), docs[|docs| - 1])
  }

  /** `after` is `points` with the events of `taken` carried out, each on its own document. */
  ghost predicate Carries(points: Points, taken: Store, after: Points) {
    forall id {:trigger PointId(id)} ::
      var u := PointId(id);
      if id in taken then
        if taken[id].op == Delete then u !in after else u in after && Shows(after[u], taken[id])
      else (u in after <==> u in points) && (u in points ==> after[u] == points[u])
  }

  /** Where a failed call may leave the points: each document as it was, or its event carried out. */
  ghost predicate HalfCarries(points: Points, taken: Store, after: Points) {
    forall id {:trigger PointId(id)} ::
      var u := PointId(id);
      || ((u in after <==> u in points) && (u in points ==> after[u] == points[u]))
      || (id in taken && if taken[id].op == Delete then u !in after else u in after && Shows(after[u], taken[id]))
  }

  lemma {:induction false} CarriesUnique(points: Points, taken: Store, a: Points, b: Points)
    requires Carries(points, taken, a) && Carries(points, taken, b)
    ensures a == b
  {
    forall u: Uuid ensures (u in a <==> u in b) && (u in a ==> a[u] == b[u]) {
      assert u == PointId(u.name);
    }
  }

  lemma {:induction false} ApplyEachIndex(s: Stored, docs: seq<CanonicalDoc>)
    ensures ApplyEach(s, docs).os == PutAll(s.os, docs)
  {
    if docs != [] {
      ApplyEachIndex(s, docs[..|docs| - 1]);
    }
  }

  lemma {:induction false} TakenPut(os: Store, m: Store, d: CanonicalDoc)
    requires WellKeyed(os) && WellKeyed(m)
    ensures Taken(os, Put(m, d)) == if Fresh(Merge(os, m), d) then Taken(os, m)[d.docId := d] else Taken(os, m)
  {
    var after := if Fresh(Merge(os, m), d) then Taken(os, m)[d.docId := d] else Taken(os, m);
    forall id
      ensures (id in Taken(os, Put(m, d)) <==> id in after) && (id in after ==> Taken(os, Put(m, d))[id] == after[id])
    {
    }
  }

  lemma {:induction false} TakenNext(os: Store, docs: seq<CanonicalDoc>, d: CanonicalDoc)
    requires WellKeyed(os)
    ensures var before, after := Taken(os, Newest(docs)), Taken(os, Put(Newest(docs), d));
            after == if Fresh(PutAll(os, docs), d) then before[d.docId := d] else before
  {
    CompactionIsExact(os, docs);
    NewestWellKeyed(docs);
    TakenPut(os, Newest(docs), d);
  }

  /** Record by record, the vector store ends with the compacted batch's events carried out. */
  lemma {:induction false} ApplyEachVectors(s: Stored, docs: seq<CanonicalDoc>)
    requires WellKeyed(s.os)
    ensures Carries(s.points, Taken(s.os, Newest(docs)), ApplyEach(s, docs).points)
  {
    if docs == [] {
      assert Taken(s.os, map[]) == map[];
    } else {
      var front, d := docs[..|docs| - 1], docs[|docs| - 1];
      ApplyEachVectors(s, front);
      ApplyEachIndex(s, front);
      TakenNext(s.os, front, d);
    }
  }

  // ---- apply ----

  /** `s` lists the entries of `m`, each exactly once. */
  ghost predicate Lists(s: seq<CanonicalDoc>, m: Store) {
    && (forall i :: 0 <= i < |s| ==> s[i].docId in m && m[s[i].docId] == s[i])
    && (forall i, j :: 0 <= i < j < |s| ==> s[i].docId != s[j].docId)
    && (forall id :: id in m ==> exists i :: 0 <= i < |s| && s[i].docId == id)
  }

  lemma {:induction false} ListingIsItsNewest(s: seq<CanonicalDoc>, m: Store)
    requires Lists(s, m)
    ensures Newest(s) == m
  {
    NewestDominates(s);
    NewestWellKeyed(s);
    forall id ensures (id in m <==> id in Newest(s)) && (id in m ==> m[id] == Newest(s)[id]) {
      if id in m {
        var i :| 0 <= i < |s| && s[i].docId == id;
        assert s[i] in s;
      }
      if id in Newest(s) {
        var i :| 0 <= i < |s| && s[i] == Newest(s)[id];
      }
    }
  }

  /** The first loop of `apply`. */
  method Compact(docs: seq<CanonicalDoc>) returns (newest: Store)
    ensures newest == Newest(docs)
  {
    newest := map[];
    var i := 0;
    while i < |docs|
      invariant 0 <= i <= |docs| && newest == Newest(docs[..i])
    {
      var d := docs[i];
      assert docs[..i + 1][..i] == docs[..i];
      if d.docId !in newest || d.version > newest[d.docId].version {
        newest := newest[d.docId := d];
      }
      i := i + 1;
    }
    assert docs[..i] == docs;
  }

  /** The entries the guard lets through. */
  function Admitted(seen: map<string, int>, newest: Store): Store {
    map id | id in newest && Protocol.ShouldApply(seen, newest[id]) :: newest[id]
  }

  /** The second loop: a walk over the map in whatever order the runtime picks. */
  method AskGuard(guard: Guard, newest: Store) returns (toApply: seq<CanonicalDoc>)
    requires WellKeyed(newest)
    ensures Lists(toApply, Admitted(guard.seen, newest))
  {
    toApply := [];
    var left := newest.Keys;
    while left != {}
      invariant left <= newest.Keys
      invariant Lists(toApply, map id | id in Admitted(guard.seen, newest) && id !in left :: newest[id])
      decreases left
    {
      var id :| id in left;
      var ok := guard.ShouldApply(id, newest[id].version);
      ghost var before := map i | i in Admitted(guard.seen, newest) && i !in left :: newest[i];
      ghost var after := map i | i in Admitted(guard.seen, newest) && i !in left - {id} :: newest[i];
      if ok {
        assert after == before[id := newest[id]];
        ListsMore(toApply, before, newest[id]);
        toApply := toApply + [newest[id]];
      } else {
        assert after == before;
      }
      left := left - {id};
    }
    assert (map id | id in Admitted(guard.seen, newest) && id !in left :: newest[id]) == Admitted(guard.seen, newest);
  }

  lemma {:induction false} ListsMore(s: seq<CanonicalDoc>, m: Store, d: CanonicalDoc)
    requires Lists(s, m) && d.docId !in m
    ensures Lists(s + [d], m[d.docId := d])
  {
    var t, m' := s + [d], m[d.docId := d];
    forall id | id in m' ensures exists i :: 0 <= i < |t| && t[i].docId == id {
      if id == d.docId {
        assert t[|s|].docId == id;
      } else {
        var i :| 0 <= i < |s| && s[i].docId == id;
        assert t[i].docId == id;
      }
    }
  }

  ghost predicate DistinctIds(docs: seq<CanonicalDoc>) {
    forall i, j :: 0 <= i < j < |docs| ==> docs[i].docId != docs[j].docId
  }

  ghost predicate Mentions(docs: seq<CanonicalDoc>, id: string) {
    exists k :: 0 <= k < |docs| && docs[k].docId == id
  }

  lemma {:induction false} OverwriteAt(points: Points, docs: seq<CanonicalDoc>)
    requires DistinctIds(docs)
    ensures forall k :: 0 <= k < |docs| ==>
              PointId(docs[k].docId) in Overwrite(points, docs) &&
                Shows(Overwrite(points, docs)[PointId(docs[k].docId)], docs[k])
    ensures forall id :: !Mentions(docs, id) ==> var u := PointId(id);
              (u in Overwrite(points, docs) <==> u in points) &&
                (u in points ==> Overwrite(points, docs)[u] == points[u])
  {
    if docs != [] {
      var front, d := docs[..|docs| - 1], docs[|docs| - 1];
      OverwriteAt(points, front);
      forall k | 0 <= k < |front| ensures docs[k] == front[k] && docs[k].docId != d.docId {
      }
      forall id | !Mentions(docs, id) ensures !Mentions(front, id) && id != d.docId {
        assert docs[|docs| - 1].docId == d.docId;
        assert forall k :: 0 <= k < |front| ==> docs[k].docId == front[k].docId;
      }
    }
  }

  /** The part of `toApply` that OpenSearch took, upserts apart from deletes, in order. */
  method Split(toApply: seq<CanonicalDoc>, applied: set<string>)
    returns (upserts: seq<CanonicalDoc>, deletes: seq<string>)
    requires DistinctIds(toApply)
    ensures DistinctIds(upserts)
    ensures forall d :: d in upserts <==> d in toApply && d.docId in applied && d.op != Delete
    ensures forall id :: id in deletes <==>
              exists k :: 0 <= k < |toApply| && toApply[k].docId == id && id in applied && toApply[k].op == Delete
  {
    upserts, deletes := [], [];
    var i := 0;
    while i < |toApply|
      invariant 0 <= i <= |toApply| && DistinctIds(upserts)
      invariant forall d :: d in upserts <==> d in toApply[..i] && d.docId in applied && d.op != Delete
      invariant forall id :: id in deletes <==>
                  exists k :: 0 <= k < i && toApply[k].docId == id && id in applied && toApply[k].op == Delete
    {
      var d := toApply[i];
      assert toApply[..i + 1] == toApply[..i] + [d];
      if d.docId in applied {
        if d.op == Delete {
          deletes := deletes + [d.docId];
        } else {
          assert forall k :: 0 <= k < |upserts| ==> upserts[k] in upserts;
          upserts := upserts + [d];
        }
      }
      i := i + 1;
    }
    assert toApply[..i] == toApply;
  }

  /** The environment's part in one call of `apply`: the bulk request, the embedding call, the two
    * vector requests (each may land although its answer is lost), and the generation bumps. */
  datatype Faults = Faults(
    bulk: BulkFaults,
    embedOk: bool,
    upsertOk: bool,
    upsertLands: bool,
    deleteOk: bool,
    deleteLands: bool,
    bumpFails: set<int>
  )

  /** A bulk request of `n` items comes back without an error. */
  predicate BulkOk(n: nat, env: BulkFaults) {
    n == 0 || (!env.lost && forall i :: i in env.failed ==> i >= n)
  }

  /** The calls that the taken documents make necessary succeed. */
  predicate VectorsOk(taken: Store, env: Faults) {
    && ((exists id :: id in taken && taken[id].op != Delete) ==> env.embedOk && env.upsertOk)
    && ((exists id :: id in taken && taken[id].op == Delete) ==> env.deleteOk)
  }

  /** The entries of `kept` that OpenSearch reports as applied. */
  function Selected(kept: Store, applied: set<string>): Store {
    map id | id in kept && id in applied :: kept[id]
  }

  /** Step 3 of `apply`: embed and write the vectors of what OpenSearch took. */
  method WriteVectors(qd: Qdrant, toApply: seq<CanonicalDoc>, applied: set<string>, ghost kept: Store, env: Faults)
    returns (ok: bool)
    requires WellPointed(qd.points) && Lists(toApply, kept)
    modifies qd
    ensures WellPointed(qd.points)
    ensures ok <==> VectorsOk(Selected(kept, applied), env)
    ensures ok ==> Carries(old(qd.points), Selected(kept, applied), qd.points)
    ensures HalfCarries(old(qd.points), Selected(kept, applied), qd.points)
  {
    var upserts, deletes := Split(toApply, applied);
    SplitSelected(toApply, kept, applied, upserts, deletes);
    SplitNeeds(Selected(kept, applied), upserts, deletes, env);
    OverwriteWellPointed(qd.points, upserts);
    OverwriteHalf(qd.points, Selected(kept, applied), upserts, deletes);
    if upserts != [] {
      if !env.embedOk {
        return false;
      }
      if env.upsertOk || env.upsertLands {
        qd.Upsert(upserts);
      }
      if !env.upsertOk {
        return false;
      }
    }
    assert qd.points == Overwrite(old(qd.points), upserts);
    if deletes != [] {
      if env.deleteOk || env.deleteLands {
        qd.DeleteByDocIds(deletes);
        DeletedCarries(old(qd.points), Selected(kept, applied), upserts, deletes, qd.points);
      }
      if !env.deleteOk {
        return false;
      }
    }
    DeletedCarries(old(qd.points), Selected(kept, applied), upserts, deletes, qd.points);
    return true;
  }

  ghost predicate Splits(selected: Store, upserts: seq<CanonicalDoc>, deletes: seq<string>) {
    && (forall id :: id in selected && selected[id].op != Delete ==> Mentions(upserts, id))
    && (forall k :: 0 <= k < |upserts| ==> upserts[k].op != Delete)
    && (forall k :: 0 <= k < |upserts| ==> upserts[k].docId in selected && selected[upserts[k].docId] == upserts[k])
    && (forall id :: id in deletes <==> id in selected && selected[id].op == Delete)
  }

  lemma {:induction false} SplitNeeds(selected: Store, upserts: seq<CanonicalDoc>, deletes: seq<string>, env: Faults)
    requires Splits(selected, upserts, deletes)
    ensures VectorsOk(selected, env) <==>
            (upserts != [] ==> env.embedOk && env.upsertOk) && (deletes != [] ==> env.deleteOk)
  {
    if upserts != [] {
      assert upserts[0].docId in selected && selected[upserts[0].docId].op != Delete;
    }
    if deletes != [] {
      assert deletes[0] in deletes;
    }
  }

  lemma {:induction false} SplitSelected(toApply: seq<CanonicalDoc>, kept: Store, applied: set<string>,
                                         upserts: seq<CanonicalDoc>, deletes: seq<string>)
    requires Lists(toApply, kept)
    requires forall d :: d in upserts <==> d in toApply && d.docId in applied && d.op != Delete
    requires forall id :: id in deletes <==>
               exists k :: 0 <= k < |toApply| && toApply[k].docId == id && id in applied && toApply[k].op == Delete
    ensures Splits(Selected(kept, applied), upserts, deletes)
  {
    var selected := Selected(kept, applied);
    forall id | id in selected && selected[id].op != Delete ensures Mentions(upserts, id) {
      var i :| 0 <= i < |toApply| && toApply[i].docId == id;
      assert toApply[i] in upserts;
    }
    forall k | 0 <= k < |upserts|
      ensures upserts[k].docId in selected && selected[upserts[k].docId] == upserts[k] && upserts[k].op != Delete
    {
      assert upserts[k] in upserts;
    }
    forall id | id in selected && selected[id].op == Delete ensures id in deletes {
      var i :| 0 <= i < |toApply| && toApply[i].docId == id;
    }
  }

  lemma {:induction false} OverwriteWellPointed(points: Points, docs: seq<CanonicalDoc>)
    requires WellPointed(points)
    ensures WellPointed(Overwrite(points, docs))
  {
    if docs != [] {
      OverwriteWellPointed(points, docs[..|docs| - 1]);
    }
  }

  lemma {:induction false} OverwriteHalf(points: Points, selected: Store, upserts: seq<CanonicalDoc>,
                                         deletes: seq<string>)
    requires DistinctIds(upserts) && Splits(selected, upserts, deletes)
    ensures HalfCarries(points, selected, Overwrite(points, upserts))
  {
    OverwriteAt(points, upserts);
    var after := Overwrite(points, upserts);
    forall id ensures var u := PointId(id);
      || ((u in after <==> u in points) && (u in points ==> after[u] == points[u]))
      || (id in selected && selected[id].op != Delete && u in after && Shows(after[u], selected[id]))
    {
      if Mentions(upserts, id) {
        var k :| 0 <= k < |upserts| && upserts[k].docId == id;
        assert selected[upserts[k].docId] == upserts[k];
      }
    }
  }

  lemma {:induction false} DeletedCarries(points: Points, selected: Store, upserts: seq<CanonicalDoc>,
                                          deletes: seq<string>, after: Points)
    requires WellPointed(points) && DistinctIds(upserts) && Splits(selected, upserts, deletes)
    requires var mid := Overwrite(points, upserts);
             && after.Keys <= mid.Keys && (forall u :: u in mid ==> (u in after <==> mid[u].docId !in deletes))
             && forall u :: u in after ==> after[u] == mid[u]
    ensures Carries(points, selected, after)
  {
    var mid := Overwrite(points, upserts);
    OverwriteAt(points, upserts);
    OverwriteWellPointed(points, upserts);
    forall id ensures var u := PointId(id);
      if id in selected then
        if selected[id].op == Delete then u !in after else u in after && Shows(after[u], selected[id])
      else (u in after <==> u in points) && (u in points ==> after[u] == points[u])
    {
      var u := PointId(id);
      assert u in mid ==> mid[u].docId == id;
      if Mentions(upserts, id) {
        var k :| 0 <= k < |upserts| && upserts[k].docId == id;
      }
    }
  }

  /** The guard after `taken` has been committed. */
  ghost predicate Remembers(seen: map<string, int>, taken: Store, after: map<string, int>) {
    && after.Keys == seen.Keys + taken.Keys
    && forall id :: id in after ==>
         after[id] == if id !in taken then seen[id]
                      else if id in seen && seen[id] > taken[id].version then seen[id] else taken[id].version
  }

  /** Whose documents they are, upserts and deletes alike. */
  function TenantsOf(taken: Store): (tenants: set<int>)
    ensures forall id :: id in taken ==> taken[id].tenantId in tenants
    ensures forall t :: t in tenants ==> exists id :: id in taken && taken[id].tenantId == t
  {
    set id | id in taken :: taken[id].tenantId
  }

  /** Step 4 of `apply`: commit the guard and note the tenants that changed. */
  method Settle(guard: Guard, toApply: seq<CanonicalDoc>, applied: set<string>, ghost kept: Store)
    returns (tenants: set<int>)
    requires Lists(toApply, kept)
    modifies guard
    ensures Remembers(old(guard.seen), Selected(kept, applied), guard.seen)
    ensures tenants == TenantsOf(Selected(kept, applied))
  {
    tenants := {};
    var i := 0;
    ghost var done: Store := map[];
    while i < |toApply|
      invariant 0 <= i <= |toApply|
      invariant forall k {:trigger toApply[k]} :: 0 <= k < i && toApply[k].docId in applied ==> toApply[k].docId in done
      invariant forall k {:trigger toApply[k]} :: i <= k < |toApply| ==> toApply[k].docId !in done
      invariant SubMap(done, kept) && done.Keys <= applied
      invariant Remembers(old(guard.seen), done, guard.seen) && tenants == TenantsOf(done)
    {
      var d := toApply[i];
      if d.docId in applied {
        ghost var mid := guard.seen;
        guard.Commit(d.docId, d.version);
        RemembersMore(old(guard.seen), done, mid, d, guard.seen);
        tenants := tenants + {d.tenantId};
        TenantsMore(done, d);
        done := done[d.docId := d];
      }
      i := i + 1;
    }
    AllSettled(toApply, kept, applied, done);
  }

  lemma {:induction false} AllSettled(toApply: seq<CanonicalDoc>, kept: Store, applied: set<string>, done: Store)
    requires Lists(toApply, kept) && SubMap(done, kept) && done.Keys <= applied
    requires forall k :: 0 <= k < |toApply| && toApply[k].docId in applied ==> toApply[k].docId in done
    ensures done == Selected(kept, applied)
  {
    forall id | id in Selected(kept, applied) ensures id in done {
      var k :| 0 <= k < |toApply| && toApply[k].docId == id;
    }
  }

  lemma {:induction false} RemembersMore(seen: map<string, int>, done: Store, mid: map<string, int>, d: CanonicalDoc,
                                         after: map<string, int>)
    requires Remembers(seen, done, mid) && d.docId !in done && after.Keys == mid.Keys + {d.docId}
    requires after[d.docId] == if d.docId in mid && mid[d.docId] > d.version then mid[d.docId] else d.version
    requires forall id :: id in mid && id != d.docId ==> after[id] == mid[id]
    ensures Remembers(seen, done[d.docId := d], after)
  {
  }

  lemma {:induction false} TenantsMore(done: Store, d: CanonicalDoc)
    requires d.docId !in done
    ensures TenantsOf(done[d.docId := d]) == TenantsOf(done) + {d.tenantId}
  {
    var after := done[d.docId := d];
    forall id | id in done ensures done[id].tenantId in TenantsOf(after) {
      assert id in after && after[id] == done[id];
    }
    assert d.docId in after && after[d.docId] == d;
  }

  function GenAt(gens: map<int, nat>, tenant: int): nat {
    if tenant in gens then gens[tenant] else 0
  }

  /** Step 5 of `apply`: each changed tenant's generation goes up by one, where Redis answers. */
  method BumpAll(gens: Generations, tenants: set<int>, fails: set<int>)
    modifies gens
    ensures forall t :: GenAt(gens.gens, t) == GenAt(old(gens.gens), t) + if t in tenants && t !in fails then 1 else 0
  {
    var left := tenants;
    while left != {}
      invariant left <= tenants
      invariant forall t :: GenAt(gens.gens, t) ==
                            GenAt(old(gens.gens), t) + if t in tenants - left && t !in fails then 1 else 0
      decreases left
    {
      ghost var some := AnyOf(left);
      var t :| t in left;
      gens.BumpGeneration(t, t !in fails);
      left := left - {t};
    }
  }

  /** What an interrupted `apply` may leave in OpenSearch: some of the survivors, nothing else. */
  ghost predicate Partial(os: Store, newest: Store, after: Store) {
    && os.Keys <= after.Keys
    && forall id :: id in after ==>
         (id in os && after[id] == os[id]) || (id in newest && Fresh(os, newest[id]) && after[id] == newest[id])
  }

  /** A retry completes an interrupted `apply`: OpenSearch ends where it would have. */
  lemma {:induction false} RetryCompletes(os: Store, docs: seq<CanonicalDoc>, after: Store)
    requires WellKeyed(os) && Partial(os, Newest(docs), after)
    ensures PutAll(after, docs) == PutAll(os, docs)
  {
    NewestWellKeyed(docs);
    CompactionIsExact(os, docs);
    CompactionIsExact(after, docs);
  }

  lemma {:induction false} ProcessedSubset(docs: seq<CanonicalDoc>, failed: set<nat>)
    ensures forall d :: d in Processed(docs, failed) ==> d in docs
  {
    if docs != [] {
      ProcessedSubset(docs[..|docs| - 1], failed);
    }
  }

  lemma {:induction false} AllProcessed(docs: seq<CanonicalDoc>, failed: set<nat>)
    requires forall i :: i in failed ==> i >= |docs|
    ensures Processed(docs, failed) == docs
  {
    if docs != [] {
      AllProcessed(docs[..|docs| - 1], failed);
      assert docs == docs[..|docs| - 1] + [docs[|docs| - 1]];
    }
  }

  lemma {:induction false} PutAllPartial(os: Store, newest: Store, docs: seq<CanonicalDoc>)
    requires forall d :: d in docs ==> d.docId in newest && newest[d.docId] == d
    ensures Partial(os, newest, PutAll(os, docs))
  {
    if docs != [] {
      var front, d := docs[..|docs| - 1], docs[|docs| - 1];
      assert d in docs;
      PutAllPartial(os, newest, front);
    }
  }

  /** What `Bulk` reports for a listing of `kept` is what `os` took of it. */
  lemma {:induction false} ReportedIsTaken(os: Store, kept: Store)
    requires WellKeyed(os) && WellKeyed(kept)
    ensures Selected(kept, Advanced(os, Merge(os, kept))) == Taken(os, kept)
  {
  }

  ghost predicate Below(seen: map<string, int>, os: Store) {
    forall id :: id in seen ==> id in os && seen[id] <= os[id].version
  }

  lemma {:induction false} AdmittedIsEnough(seen: map<string, int>, os: Store, newest: Store)
    requires Below(seen, os) && WellKeyed(newest)
    ensures Merge(os, Admitted(seen, newest)) == Merge(os, newest)
    ensures Taken(os, Admitted(seen, newest)) == Taken(os, newest)
  {
  }

  /** When a call of `apply` succeeds: the bulk request carries what the guard admits, and the
    * vector calls are those of what OpenSearch takes. */
  ghost predicate Succeeds(seen: map<string, int>, os: Store, docs: seq<CanonicalDoc>, env: Faults) {
    BulkOk(|Admitted(seen, Newest(docs))|, env.bulk) && VectorsOk(Taken(os, Newest(docs)), env)
  }

  /** Nothing goes wrong. */
  predicate NoFault(env: Faults) {
    env.bulk == BulkFaults({}, false) && env.embedOk && env.upsertOk && env.deleteOk
  }

  lemma {:induction false} NoFaultSucceeds(seen: map<string, int>, os: Store, docs: seq<CanonicalDoc>, env: Faults)
    ensures NoFault(env) ==> Succeeds(seen, os, docs, env)
  {
  }

  lemma {:induction false} SucceedsOn(seen: map<string, int>, os: Store, docs: seq<CanonicalDoc>, kept: Store, n: nat,
                                      env: Faults)
    requires kept == Admitted(seen, Newest(docs)) && n == |kept| && Taken(os, kept) == Taken(os, Newest(docs))
    ensures Succeeds(seen, os, docs, env) <==> BulkOk(n, env.bulk) && VectorsOk(Taken(os, kept), env)
  {
  }

  lemma {:induction false} NothingToFail(seen: map<string, int>, os: Store, docs: seq<CanonicalDoc>, env: Faults)
    requires |Admitted(seen, Newest(docs))| == 0 && Taken(os, Newest(docs)) == map[]
    ensures Succeeds(seen, os, docs, env)
  {
  }

  lemma {:induction false} ListedOnce(s: seq<CanonicalDoc>, m: Store)
    requires Lists(s, m)
    ensures |s| == |m|
    decreases |s|
  {
    if s == [] {
      assert m == map[];
    } else {
      var last := s[|s| - 1];
      var rest := m - {last.docId};
      ListsFront(s, m);
      ListedOnce(s[..|s| - 1], rest);
      assert m.Keys == rest.Keys + {last.docId};
      assert |m| == |m.Keys| && |rest| == |rest.Keys|;
    }
  }

  lemma {:induction false} ListsFront(s: seq<CanonicalDoc>, m: Store)
    requires Lists(s, m) && s != []
    ensures Lists(s[..|s| - 1], m - {s[|s| - 1].docId})
  {
    var front, last := s[..|s| - 1], s[|s| - 1];
    assert forall i :: 0 <= i < |front| ==> front[i] == s[i];
    forall id | id in m && id != last.docId ensures exists i :: 0 <= i < |front| && front[i].docId == id {
      var i :| 0 <= i < |s| && s[i].docId == id;
      assert front[i].docId == id;
    }
  }

  lemma {:induction false} Prepared(seen: map<string, int>, os: Store, docs: seq<CanonicalDoc>)
    requires Below(seen, os)
    ensures var kept := Admitted(seen, Newest(docs));
            && WellKeyed(Newest(docs)) && WellKeyed(kept) && SubMap(kept, Newest(docs))
            && Merge(os, kept) == Merge(os, Newest(docs)) && Taken(os, kept) == Taken(os, Newest(docs))
  {
    NewestWellKeyed(docs);
    AdmittedIsEnough(seen, os, Newest(docs));
  }

  class Applier {
    const guard: Guard
    const os: OpenSearch
    const qd: Qdrant
    const gens: Generations

    constructor (guard: Guard, os: OpenSearch, qd: Qdrant, gens: Generations)
      ensures this.guard == guard && this.os == os && this.qd == qd && this.gens == gens
    {
      this.guard, this.os, this.qd, this.gens := guard, os, qd, gens;
    }

    ghost predicate Valid()
      reads guard, os, qd
    {
      Below(guard.seen, os.docs) && WellKeyed(os.docs) && WellPointed(qd.points)
    }

    /** Step 1: the batch compacted, and what the guard admits of it. */
    method Survivors(docs: seq<CanonicalDoc>) returns (toApply: seq<CanonicalDoc>)
      requires Valid()
      ensures var kept := Admitted(guard.seen, Newest(docs));
              && Lists(toApply, kept) && |toApply| == |kept| && WellKeyed(kept) && SubMap(kept, Newest(docs))
              && Merge(os.docs, kept) == Merge(os.docs, Newest(docs))
              && Taken(os.docs, kept) == Taken(os.docs, Newest(docs))
    {
      var newest := Compact(docs);
      Prepared(guard.seen, os.docs, docs);
      toApply := AskGuard(guard, newest);
      ListedOnce(toApply, Admitted(guard.seen, newest));
    }

    /** Whatever the order of the map walks, the guard's contents and the batch, a call that
      * succeeds leaves both sinks as if every record had been applied alone, in order; a call
      * that fails leaves the guard and the generations alone and can simply be retried. */
    method Apply(docs: seq<CanonicalDoc>, env: Faults) returns (ok: bool)
      requires Valid()
      modifies guard, os, qd, gens
      ensures Valid()
      ensures ok <==> Succeeds(old(guard.seen), old(os.docs), docs, env)
      ensures ok ==> Stored(os.docs, qd.points) == ApplyEach(old(Stored(os.docs, qd.points)), docs)
      ensures ok ==> Carries(old(qd.points), Taken(old(os.docs), Newest(docs)), qd.points)
      ensures ok ==> Remembers(old(guard.seen), Taken(old(os.docs), Newest(docs)), guard.seen)
      ensures ok ==> forall t :: GenAt(gens.gens, t) == GenAt(old(gens.gens), t) +
                       if t in TenantsOf(Taken(old(os.docs), Newest(docs))) && t !in env.bumpFails then 1 else 0
      ensures !ok ==> guard.seen == old(guard.seen) && gens.gens == old(gens.gens)
      ensures !ok ==> Partial(old(os.docs), Newest(docs), os.docs)
      ensures !ok ==> HalfCarries(old(qd.points), Taken(old(os.docs), Newest(docs)), qd.points)
    {
      ghost var kept := Admitted(guard.seen, Newest(docs));
      var toApply := Survivors(docs);
      if |toApply| == 0 {
        NothingAdmitted(old(Stored(os.docs, qd.points)), docs, kept, toApply);
        NothingToFail(guard.seen, os.docs, docs, env);
        return true;
      }
      SucceedsOn(guard.seen, os.docs, docs, kept, |toApply|, env);
      ok := Sink(toApply, kept, env);
      SinkOutcome(old(Stored(os.docs, qd.points)), docs, kept, Stored(os.docs, qd.points), ok);
    }

    /** Steps 2 to 5, on the survivors the guard admitted. */
    method Sink(toApply: seq<CanonicalDoc>, ghost kept: Store, env: Faults) returns (ok: bool)
      requires Valid() && WellKeyed(kept) && Lists(toApply, kept)
      modifies guard, os, qd, gens
      ensures Valid()
      ensures ok <==> BulkOk(|toApply|, env.bulk) && VectorsOk(Taken(old(os.docs), kept), env)
      ensures ok ==> os.docs == Merge(old(os.docs), kept)
      ensures ok ==> Carries(old(qd.points), Taken(old(os.docs), kept), qd.points)
      ensures ok ==> Remembers(old(guard.seen), Taken(old(os.docs), kept), guard.seen)
      ensures ok ==> forall t :: GenAt(gens.gens, t) == GenAt(old(gens.gens), t) +
                       if t in TenantsOf(Taken(old(os.docs), kept)) && t !in env.bumpFails then 1 else 0
      ensures !ok ==> guard.seen == old(guard.seen) && gens.gens == old(gens.gens)
      ensures !ok ==> Partial(old(os.docs), kept, os.docs)
      ensures !ok ==> HalfCarries(old(qd.points), Taken(old(os.docs), kept), qd.points)
    {
      var r := os.Bulk(toApply, env.bulk);
      BulkOutcome(old(os.docs), toApply, kept, env.bulk.failed, guard.seen);
      if r.BulkError? {
        return false;
      }
      ok := WriteVectors(qd, toApply, r.ids, kept, env);
      if ok {
        Finish(toApply, r.ids, kept, env);
        RemembersBelow(old(guard.seen), old(os.docs), kept, guard.seen);
      }
    }

    /** Steps 4 and 5: the guard and the generations. */
    method Finish(toApply: seq<CanonicalDoc>, applied: set<string>, ghost kept: Store, env: Faults)
      requires Lists(toApply, kept)
      modifies guard, gens
      ensures Remembers(old(guard.seen), Selected(kept, applied), guard.seen)
      ensures forall t :: GenAt(gens.gens, t) == GenAt(old(gens.gens), t) +
                if t in TenantsOf(Selected(kept, applied)) && t !in env.bumpFails then 1 else 0
    {
      var tenants := Settle(guard, toApply, applied, kept);
      BumpAll(gens, tenants, env.bumpFails);
    }
  }

  lemma {:induction false} BulkOutcome(os: Store, toApply: seq<CanonicalDoc>, kept: Store, failed: set<nat>,
                                       seen: map<string, int>)
    requires WellKeyed(os) && WellKeyed(kept) && Lists(toApply, kept) && Below(seen, os)
    ensures var after := PutAll(os, Processed(toApply, failed));
            Partial(os, kept, after) && WellKeyed(after) && Below(seen, after)
    ensures (forall i :: 0 <= i < |toApply| ==> i !in failed) ==>
              var after := PutAll(os, Processed(toApply, failed));
              after == Merge(os, kept) && Selected(kept, Advanced(os, after)) == Taken(os, kept)
  {
    ProcessedSubset(toApply, failed);
    if forall i :: 0 <= i < |toApply| ==> i !in failed {
      AllProcessed(toApply, failed);
    }
    BulkPartial(os, toApply, kept, Processed(toApply, failed), seen);
    ListingIsItsNewest(toApply, kept);
    CompactionIsExact(os, toApply);
    ReportedIsTaken(os, kept);
  }

  lemma {:induction false} BulkPartial(os: Store, toApply: seq<CanonicalDoc>, kept: Store, done: seq<CanonicalDoc>,
                                       seen: map<string, int>)
    requires WellKeyed(os) && WellKeyed(kept) && Lists(toApply, kept) && Below(seen, os)
    requires forall d :: d in done ==> d in toApply
    ensures Partial(os, kept, PutAll(os, done)) && WellKeyed(PutAll(os, done)) && Below(seen, PutAll(os, done))
  {
    assert forall d :: d in toApply ==> d.docId in kept && kept[d.docId] == d;
    PutAllPartial(os, kept, done);
  }

  lemma {:induction false} RemembersBelow(seen: map<string, int>, os: Store, kept: Store, after: map<string, int>)
    requires Below(seen, os) && WellKeyed(kept) && Remembers(seen, Taken(os, kept), after)
    ensures Below(after, Merge(os, kept))
  {
  }

  lemma {:induction false} PartialWider(os: Store, kept: Store, newest: Store, after: Store)
    requires Partial(os, kept, after) && SubMap(kept, newest)
    ensures Partial(os, newest, after)
  {
  }

  lemma {:induction false} NothingAdmitted(s: Stored, docs: seq<CanonicalDoc>, kept: Store, toApply: seq<CanonicalDoc>)
    requires WellKeyed(s.os) && toApply == [] && Lists(toApply, kept)
    requires Merge(s.os, kept) == Merge(s.os, Newest(docs)) && Taken(s.os, kept) == Taken(s.os, Newest(docs))
    ensures ApplyEach(s, docs) == s && Taken(s.os, Newest(docs)) == map[]
  {
    assert kept == map[];
    assert Taken(s.os, kept) == map[];
    assert Merge(s.os, kept) == s.os;
    assert Carries(s.points, map[], s.points);
    Outcome(s, docs, kept, s.points);
  }

  /** What the sinks hold after the survivors were written, in terms of the whole batch. */
  lemma {:induction false} SinkOutcome(s: Stored, docs: seq<CanonicalDoc>, kept: Store, after: Stored, ok: bool)
    requires WellKeyed(s.os) && SubMap(kept, Newest(docs))
    requires Merge(s.os, kept) == Merge(s.os, Newest(docs)) && Taken(s.os, kept) == Taken(s.os, Newest(docs))
    requires ok ==> after.os == Merge(s.os, kept) && Carries(s.points, Taken(s.os, kept), after.points)
    requires !ok ==> Partial(s.os, kept, after.os)
    ensures ok ==> after == ApplyEach(s, docs)
    ensures ok ==> Carries(s.points, Taken(s.os, Newest(docs)), after.points)
    ensures !ok ==> Partial(s.os, Newest(docs), after.os)
  {
    if ok {
      Outcome(s, docs, kept, after.points);
    } else {
      PartialWider(s.os, kept, Newest(docs), after.os);
    }
  }

  /** The batch form and the one-at-a-time form describe the same stores. */
  lemma {:induction false} Outcome(s: Stored, docs: seq<CanonicalDoc>, kept: Store, after: Points)
    requires WellKeyed(s.os)
    requires Merge(s.os, kept) == Merge(s.os, Newest(docs)) && Taken(s.os, kept) == Taken(s.os, Newest(docs))
    requires Carries(s.points, Taken(s.os, kept), after)
    ensures ApplyEach(s, docs) == Stored(Merge(s.os, kept), after)
  {
    CompactionIsExact(s.os, docs);
    ApplyEachIndex(s, docs);
    ApplyEachVectors(s, docs);
    CarriesUnique(s.points, Taken(s.os, Newest(docs)), after, ApplyEach(s, docs).points);
  }

  // ---- the lane loop ----

  function BadRecords(records: seq<Protocol.Record>): seq<Protocol.Record> {
    if records == [] then []
    else
      var last := records[|records| - 1];
      BadRecords(records[..|records| - 1]) + (if Protocol.Good(last) then [] else [last])
  }

  /** `places` are the places of the valid records, in order, or those of the others. */
  ghost predicate Sifts(records: seq<Protocol.Record>, places: seq<nat>, valid: bool) {
    && (forall i :: 0 <= i < |places| ==> places[i] < |records|)
    && (forall i, j :: 0 <= i < j < |places| ==> places[i] < places[j])
    && forall k :: 0 <= k < |records| ==>
         (k in places <==> (records[k].Parsed? && Validate(records[k].doc).Accepted?) == valid)
  }

  lemma {:induction false} SiftOne(records: seq<Protocol.Record>, places: seq<nat>, valid: bool)
    requires records != [] && Sifts(records[..|records| - 1], places, valid)
    ensures var n := |records| - 1;
            Sifts(records, if Protocol.Good(records[n]) == valid then places + [n] else places, valid)
  {
    var n := |records| - 1;
    assert forall k :: 0 <= k < n ==> records[..n][k] == records[k];
    assert n !in places;
  }

  /** The records handed on are the valid ones, each once and in order. */
  lemma {:induction false} ValidOnes(records: seq<Protocol.Record>) returns (places: seq<nat>)
    ensures Sifts(records, places, true) && |places| == |Protocol.GoodDocs(records)|
    ensures forall i :: 0 <= i < |places| ==>
              records[places[i]].Parsed? && records[places[i]].doc == Protocol.GoodDocs(records)[i]
  {
    if records == [] {
      places := [];
    } else {
      var n, good := |records| - 1, Protocol.GoodDocs(records);
      var front := ValidOnes(records[..n]);
      SiftOne(records, front, true);
      places := if Protocol.Good(records[n]) then front + [n] else front;
      forall i | 0 <= i < |front| ensures records[front[i]].Parsed? && records[front[i]].doc == good[i] {
        assert records[..n][front[i]] == records[front[i]];
      }
    }
  }

  /** The records for the DLQ are the others, each once and in order. */
  lemma {:induction false} InvalidOnes(records: seq<Protocol.Record>) returns (places: seq<nat>)
    ensures Sifts(records, places, false) && |places| == |BadRecords(records)|
    ensures forall i :: 0 <= i < |places| ==> records[places[i]] == BadRecords(records)[i]
  {
    if records == [] {
      places := [];
    } else {
      var n := |records| - 1;
      var front := InvalidOnes(records[..n]);
      SiftOne(records, front, false);
      places := if Protocol.Good(records[n]) then front else front + [n];
    }
  }

  /** The closure handed to EachRecord: decode, validate, buffer or dead-letter. */
  method EachRecord(records: seq<Protocol.Record>) returns (good: seq<CanonicalDoc>, bad: seq<Protocol.Record>)
    ensures good == Protocol.GoodDocs(records) && bad == BadRecords(records)
  {
    good, bad := [], [];
    var i := 0;
    while i < |records|
      invariant 0 <= i <= |records|
      invariant good == Protocol.GoodDocs(records[..i]) && bad == BadRecords(records[..i])
    {
      var r := records[i];
      assert records[..i + 1][..i] == records[..i];
      if r.Garbled? {
        bad := bad + [r];
      } else if Validate(r.doc).Rejected? {
        bad := bad + [r];
      } else {
        good := good + [r.doc];
      }
      i := i + 1;
    }
    assert records[..i] == records;
  }

  /** One lane: the poll loop of `runLane` with its `flushBatch` closure. `start` is the ghost log
    * position where the buffered batch begins. */
  class LaneLoop {
    const ix: Applier
    const log: seq<Protocol.Record>
    var polled: nat
    var committed: nat
    var batch: seq<CanonicalDoc>
    var dead: seq<Protocol.Record>
    ghost var start: nat

    constructor (ix: Applier, log: seq<Protocol.Record>)
      ensures this.ix == ix && this.log == log && polled == committed == start == 0 && batch == [] && dead == []
    {
      this.ix, this.log := ix, log;
      polled, committed, batch, dead, start := 0, 0, [], [], 0;
    }

    /** The lane part of the protocol's invariant, between two flushes. */
    ghost predicate Valid()
      reads this, ix, ix.guard, ix.os, ix.qd
    {
      ix.Valid() && Safety.LaneInv(log, Lane(), ix.os.docs)
    }

    /** One poll: bad records to the DLQ, good ones to the batch. */
    method OnFetch(count: nat)
      requires Valid() && polled + count <= |log|
      modifies this
      ensures Valid() && polled == old(polled) + count && committed == old(committed) && start == old(start)
      ensures batch == old(batch) + Protocol.GoodDocs(log[old(polled)..polled])
      ensures dead == old(dead) + BadRecords(log[old(polled)..polled])
    {
      var to := polled + count;
      var good, bad := EachRecord(log[polled..to]);
      FetchedLane(log, Lane(), to, ix.os.docs);
      batch, dead, polled := batch + good, dead + bad, to;
    }

    ghost function Lane(): Protocol.Lane
      reads this
    {
      Protocol.Lane(start, polled, committed, batch, Protocol.Polling)
    }

    /** The batch handed to `apply`: the lane may forget it exactly when that succeeds. */
    method ApplyBatch(env: Faults) returns (ok: bool)
      requires Valid()
      modifies ix.guard, ix.os, ix.qd, ix.gens
      ensures Valid() && Grows(old(ix.os.docs), ix.os.docs)
      ensures ok <==> Succeeds(old(ix.guard.seen), old(ix.os.docs), batch, env)
      ensures NoFault(env) ==> ok
      ensures ok ==> Stored(ix.os.docs, ix.qd.points) == ApplyEach(old(Stored(ix.os.docs, ix.qd.points)), batch)
      ensures ok ==> AllRead(log, Lane(), ix.os.docs)
      ensures ok ==> Safety.LaneInv(log, Emptied(Lane(), committed), ix.os.docs)
      ensures ok ==> Safety.LaneInv(log, Emptied(Lane(), polled), ix.os.docs)
    {
      NoFaultSucceeds(ix.guard.seen, ix.os.docs, batch, env);
      ok := ix.Apply(batch, env);
      FlushedLane(log, Lane(), old(Stored(ix.os.docs, ix.qd.points)), ix.os.docs, ok);
    }

    /** `flushBatch`: a failed `apply` changes no offset and keeps the batch; a successful one
      * covers every record read so far before the offset moves over them. */
    method FlushBatch(env: Faults, commitOk: bool)
      requires Valid()
      modifies this, ix.guard, ix.os, ix.qd, ix.gens
      ensures Valid() && polled == old(polled) && dead == old(dead)
      ensures Grows(old(ix.os.docs), ix.os.docs)
      ensures var done := old(batch) != [] && Succeeds(old(ix.guard.seen), old(ix.os.docs), old(batch), env);
              && batch == (if done then [] else old(batch))
              && committed == (if done && commitOk then polled else old(committed))
              && (done ==>
                    Stored(ix.os.docs, ix.qd.points) == ApplyEach(old(Stored(ix.os.docs, ix.qd.points)), old(batch)))
              && (done ==> AllRead(log, Lane(), ix.os.docs))
      ensures NoFault(env) ==> batch == [] && (commitOk && old(batch) != [] ==> committed == polled)
    {
      if |batch| == 0 {
        return;
      }
      var ok := ApplyBatch(env);
      if !ok {
        return;
      }
      if commitOk {
        committed := polled;
      }
      batch := [];
      start := polled;
    }
  }

  lemma {:induction false} FetchedLane(log: seq<Protocol.Record>, lane: Protocol.Lane, to: nat, os: Store)
    requires Safety.LaneInv(log, lane, os) && lane.phase.Polling? && lane.polled <= to <= |log|
    ensures Safety.LaneInv(log, lane.(polled := to, batch := lane.batch + Protocol.GoodDocs(log[lane.polled..to])), os)
  {
    Protocol.GoodDocsConcat(log[lane.start..lane.polled], log[lane.polled..to]);
    assert log[lane.start..lane.polled] + log[lane.polled..to] == log[lane.start..to];
  }

  /** A lane whose batch has been applied. */
  function Emptied(lane: Protocol.Lane, committed: nat): Protocol.Lane {
    Protocol.Lane(lane.polled, lane.polled, committed, [], Protocol.Polling)
  }

  ghost predicate AllRead(log: seq<Protocol.Record>, lane: Protocol.Lane, os: Store)
    requires lane.polled <= |log|
  {
    forall i :: 0 <= i < lane.polled && Protocol.Good(log[i]) ==> Covers(os, log[i].doc)
  }

  lemma {:induction false} FlushedLane(log: seq<Protocol.Record>, lane: Protocol.Lane, s: Stored, after: Store,
                                       ok: bool)
    requires Safety.LaneInv(log, lane, s.os) && lane.phase.Polling?
    requires ok ==> after == ApplyEach(s, lane.batch).os
    requires !ok ==> Partial(s.os, Newest(lane.batch), after) && WellKeyed(s.os)
    ensures Grows(s.os, after) && Safety.LaneInv(log, lane, after)
    ensures ok ==> AllRead(log, lane, after)
    ensures ok ==> Safety.LaneInv(log, Emptied(lane, lane.committed), after)
    ensures ok ==> Safety.LaneInv(log, Emptied(lane, lane.polled), after)
  {
    FlushGrows(s, lane.batch, after, ok);
    Safety.LaneStable(log, lane, s.os, after);
    if ok {
      FlushCovers(log, lane, after);
      assert log[lane.polled..lane.polled] == [];
    }
  }

  lemma {:induction false} FlushGrows(s: Stored, docs: seq<CanonicalDoc>, after: Store, ok: bool)
    requires ok ==> after == ApplyEach(s, docs).os
    requires !ok ==> Partial(s.os, Newest(docs), after) && WellKeyed(s.os)
    ensures Grows(s.os, after)
    ensures ok ==> forall d :: d in docs ==> Covers(after, d)
  {
    if ok {
      ApplyEachIndex(s, docs);
      PutAllGrows(s.os, docs);
      PutAllCovers(s.os, docs);
    } else {
      NewestWellKeyed(docs);
    }
  }

  lemma {:induction false} PutAllCovers(os: Store, docs: seq<CanonicalDoc>)
    ensures forall d :: d in docs ==> Covers(PutAll(os, docs), d)
  {
    if docs != [] {
      var front, last := docs[..|docs| - 1], docs[|docs| - 1];
      assert docs == front + [last];
      PutAllCovers(os, front);
    }
  }

  lemma {:induction false} FlushCovers(log: seq<Protocol.Record>, lane: Protocol.Lane, os: Store)
    requires Safety.LaneInv(log, lane, os) && forall d :: d in lane.batch ==> Covers(os, d)
    ensures forall i :: 0 <= i < lane.polled && Protocol.Good(log[i]) ==> Covers(os, log[i].doc)
  {
    Safety.SliceDocs(log, lane.start, lane.polled);
  }
}
