/** The two sinks as values, and the two ways of feeding them a batch.
  *
  * A store maps a document id to the event that decided its present state. An event whose
  * `op` is `Delete` is a tombstone: it holds its version but nothing is searchable.
  */
module Stores {
  import opened Contract

  type Store = map<string, CanonicalDoc>

  /** External versioning: a write is taken only when it is strictly newer than the stored one. */
  predicate Fresh(os: Store, d: CanonicalDoc) {
    d.docId !in os || d.version > os[d.docId].version
  }

  predicate Covers(os: Store, d: CanonicalDoc) {
    !Fresh(os, d)
  }

  function Put(os: Store, d: CanonicalDoc): Store {
    if Fresh(os, d) then os[d.docId := d] else os
  }

  /** One record after another, in batch order. */
  function PutAll(os: Store, docs: seq<CanonicalDoc>): Store {
    if docs == [] then os else Put(PutAll(os, docs[..|docs| - 1]), docs[|docs| - 1])
  }

  /** What the first loop of `apply` builds: the first event of the highest version, per id. */
  function Newest(docs: seq<CanonicalDoc>): Store {
    PutAll(map[], docs)
  }

  /** Every entry of `batch` offered to `os`; the ids are distinct, so their order is irrelevant. */
  function Merge(os: Store, batch: Store): Store {
    map id | id in os.Keys + batch.Keys ::
      if id in batch && (id !in os || batch[id].version > os[id].version) then batch[id] else os[id]
  }

  /** The entries of `batch` that `os` takes: the set `Bulk` reports as applied. */
  function Taken(os: Store, batch: Store): Store {
    map id | id in batch && (id !in os || batch[id].version > os[id].version) :: batch[id]
  }

  predicate WellKeyed(m: Store) {
    forall id :: id in m ==> m[id].docId == id
  }

  predicate SubMap(a: Store, b: Store) {
    forall id :: id in a ==> id in b && a[id] == b[id]
  }

  /** `os` has only moved forward to become `os'`. */
  predicate Grows(os: Store, os': Store) {
    forall id :: id in os ==> id in os' && os'[id].version >= os[id].version
  }

  lemma {:induction false} NewestWellKeyed(docs: seq<CanonicalDoc>)
    ensures WellKeyed(Newest(docs))
  {
    if docs != [] {
      NewestWellKeyed(docs[..|docs| - 1]);
    }
  }

  /** Each record of a batch is covered by the record that survives compaction. */
  lemma {:induction false} NewestDominates(docs: seq<CanonicalDoc>)
    ensures forall d :: d in docs ==> Covers(Newest(docs), d)
    ensures forall id :: id in Newest(docs) ==> Newest(docs)[id] in docs
  {
    if docs != [] {
      var front, last := docs[..|docs| - 1], docs[|docs| - 1];
      assert docs == front + [last];
      NewestDominates(front);
      NewestWellKeyed(front);
    }
  }

  lemma {:induction false} NewestNonEmpty(docs: seq<CanonicalDoc>)
    requires docs != []
    ensures Newest(docs) != map[]
  {
    NewestDominates(docs);
    assert docs[0] in docs;
    assert docs[0].docId in Newest(docs);
  }

  /** The survivor is the first event of its version: ties keep the earlier record. */
  lemma {:induction false} NewestIsFirst(docs: seq<CanonicalDoc>, id: string) returns (k: nat)
    requires id in Newest(docs)
    ensures k < |docs| && docs[k] == Newest(docs)[id] && docs[k].docId == id
    ensures forall j :: 0 <= j < k && docs[j].docId == id ==> docs[j].version < docs[k].version
    ensures forall j :: 0 <= j < |docs| && docs[j].docId == id ==> docs[j].version <= docs[k].version
  {
    var n := |docs| - 1;
    var before := Newest(docs[..n]);
    if docs[n].docId == id && Fresh(before, docs[n]) {
      k := n;
      forall j | 0 <= j < n && docs[j].docId == id ensures docs[j].version < docs[n].version {
        NewestDominates(docs[..n]);
        assert docs[..n][j] in docs[..n];
      }
    } else {
      k := NewestIsFirst(docs[..n], id);
      assert forall j :: 0 <= j < n ==> docs[j] == docs[..n][j];
    }
  }

  /** The `k`-th record of the batch is the newest of its id, and the first of that version. */
  ghost predicate Survives(docs: seq<CanonicalDoc>, k: nat) {
    && k < |docs|
    && (forall j :: 0 <= j < |docs| && docs[j].docId == docs[k].docId ==> docs[j].version <= docs[k].version)
    && (forall j :: 0 <= j < k && docs[j].docId == docs[k].docId ==> docs[j].version < docs[k].version)
  }

  /** What a store takes of a compacted batch: the survivor of an id, exactly when the batch brings
    * anything newer than is stored. */
  lemma {:induction false} TakenExactly(os: Store, docs: seq<CanonicalDoc>, id: string)
    ensures id in Taken(os, Newest(docs)) <==>
            exists k :: 0 <= k < |docs| && docs[k].docId == id && (id !in os || docs[k].version > os[id].version)
    ensures id in Taken(os, Newest(docs)) ==>
            exists k :: 0 <= k < |docs| && docs[k].docId == id && docs[k] == Taken(os, Newest(docs))[id]
                        && Survives(docs, k)
  {
    NewestDominates(docs);
    if id in Newest(docs) {
      var k := NewestIsFirst(docs, id);
      assert Survives(docs, k);
    }
    if k :| 0 <= k < |docs| && docs[k].docId == id && (id !in os || docs[k].version > os[id].version) {
      assert docs[k] in docs && Covers(Newest(docs), docs[k]);
    }
  }

  /** Compaction loses nothing: offering the compacted batch, in any order, leaves the store
    * exactly as offering every record in turn. */
  lemma {:induction false} CompactionIsExact(os: Store, docs: seq<CanonicalDoc>)
    requires WellKeyed(os)
    ensures PutAll(os, docs) == Merge(os, Newest(docs))
  {
    if docs != [] {
      CompactionIsExact(os, docs[..|docs| - 1]);
      NewestWellKeyed(docs[..|docs| - 1]);
    }
  }

  lemma {:induction false} PutAllConcat(os: Store, a: seq<CanonicalDoc>, b: seq<CanonicalDoc>)
    ensures PutAll(os, a + b) == PutAll(PutAll(os, a), b)
    decreases |b|
  {
    if b == [] {
      assert a + b == a;
    } else {
      assert (a + b)[..|a + b| - 1] == a + b[..|b| - 1];
      PutAllConcat(os, a, b[..|b| - 1]);
    }
  }
}
