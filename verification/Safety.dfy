/** What every step of the indexing protocol keeps. */
module Safety {
  import opened Contract
  import opened Stores
  import opened Protocol

  /** Every entry of `need` is still to be handled in `todo` or already covered by `os`. */
  ghost predicate CoveredBeyond(need: Store, todo: Store, os: Store) {
    forall id :: id in need ==> id in todo || Covers(os, need[id])
  }

  ghost predicate AllCovered(need: Store, os: Store) {
    forall id :: id in need ==> Covers(os, need[id])
  }

  ghost predicate PhaseInv(p: Phase, newest: Store, os: Store) {
    match p
    case Polling => true
    case Filtering(todo, kept) =>
      SubMap(todo, newest) && SubMap(kept, newest) &&
      forall id :: id in newest ==> id in todo || id in kept || Covers(os, newest[id])
    case Writing(todo, applied) =>
      SubMap(todo, newest) && SubMap(applied, newest) && todo.Keys !! applied.Keys &&
      CoveredBeyond(newest, todo, os)
    case Embedding(todo, applied) => SubMap(todo, applied) && SubMap(applied, newest) && AllCovered(newest, os)
    case Settling(todo, _) => SubMap(todo, newest) && AllCovered(newest, os)
    case Bumping(_) => AllCovered(newest, os)
  }

  /** The records in front of `start` are covered or dead; the batch is exactly what follows. */
  ghost predicate LaneInv(log: seq<Record>, lane: Lane, os: Store) {
    && lane.committed <= lane.start <= lane.polled <= |log|
    && lane.batch == GoodDocs(log[lane.start..lane.polled])
    && (forall i :: 0 <= i < lane.start && Good(log[i]) ==> Covers(os, log[i].doc))
    && PhaseInv(lane.phase, Newest(lane.batch), os)
  }

  ghost predicate LanesInv(c: Config, s: State) {
    |s.lanes| == |c.logs| && forall l :: 0 <= l < |s.lanes| ==> LaneInv(c.logs[l], s.lanes[l], s.os)
  }

  /** The guard never claims more than OpenSearch holds. */
  ghost predicate GuardInv(s: State) {
    forall id :: id in s.guard ==> id in s.os && s.guard[id] <= s.os[id].version
  }

  /** `d` is a record of `log`, and the first one there with its id and version. */
  ghost predicate FirstAt(log: seq<Record>, i: nat, d: CanonicalDoc) {
    && i < |log| && log[i] == Parsed(d) && Good(log[i])
    && forall j :: 0 <= j < i && Good(log[j]) && log[j].doc.docId == d.docId ==> log[j].doc.version != d.version
  }

  ghost predicate FirstSomewhere(c: Config, d: CanonicalDoc) {
    exists l, i :: 0 <= l < |c.logs| && 0 <= i < |c.logs[l]| && FirstAt(c.logs[l], i, d)
  }

  /** OpenSearch holds the newest event it ever took, and no two events it took share an id and
    * a version. */
  ghost predicate AuthorityInv(s: State) {
    && WellKeyed(s.os)
    && (forall id :: id in s.os ==> s.os[id] in s.accepted)
    && (forall d :: d in s.accepted ==> Covers(s.os, d))
    && (forall d, e :: d in s.accepted && e in s.accepted && d.docId == e.docId && d.version == e.version ==> d == e)
  }

  /** Every event OpenSearch took was the first of its version on some lane. */
  ghost predicate ProvenanceInv(c: Config, s: State) {
    forall d :: d in s.accepted ==> FirstSomewhere(c, d)
  }

  ghost predicate PendingInv(s: State, l: nat)
    requires l < |s.lanes|
  {
    forall id :: id in Pending(s.lanes[l].phase) ==>
      var d := Pending(s.lanes[l].phase)[id];
      d.docId == id && d in s.accepted && (id !in s.overlapped ==> id in s.os && s.os[id] == d)
  }

  ghost predicate NoHiddenOverlap(s: State) {
    forall l, m, id :: 0 <= l < m < |s.lanes| && Between(s, l, id) && Between(s, m, id) ==> id in s.overlapped
  }

  ghost predicate VectorInv(s: State) {
    forall id :: id in s.vec ==> s.vec[id].docId == id && s.vec[id] in s.accepted
  }

  ghost predicate SameEvent(s: State, id: string) {
    id in s.os && id in s.vec && s.os[id] == s.vec[id]
  }

  /** Outside the overlapped ids, being in doubt is the same thing as the stores differing. */
  ghost predicate AgreementInv(s: State) {
    && s.inDoubt <= s.os.Keys
    && forall id :: id in s.os && id !in s.overlapped ==> (id in s.inDoubt <==> !SameEvent(s, id))
  }

  ghost predicate DeadInv(c: Config, s: State) {
    |s.lanes| == |c.logs| &&
    forall l, i :: 0 <= l < |s.lanes| && 0 <= i < s.lanes[l].polled && i < |c.logs[l]| && !Good(c.logs[l][i]) ==>
      (l, i) in s.dead
  }

  /** What the lanes know: their offsets, their batches and the guard. */
  ghost predicate LaneSide(c: Config, s: State) {
    LanesInv(c, s) && GuardInv(s) && DeadInv(c, s)
  }

  /** What holds of the stores and of the writes on their way to them. */
  ghost predicate StoreSide(c: Config, s: State) {
    && AuthorityInv(s) && ProvenanceInv(c, s) && VectorInv(s) && AgreementInv(s) && NoHiddenOverlap(s)
    && forall l :: 0 <= l < |s.lanes| ==> PendingInv(s, l)
  }

  ghost predicate Inv(c: Config, s: State) {
    LaneSide(c, s) && StoreSide(c, s)
  }

  lemma {:induction false} InitInv(c: Config)
    ensures Inv(c, Init(c))
  {
  }

  /** A lane's own facts survive any forward move of the shared store. */
  lemma {:induction false} LaneStable(log: seq<Record>, lane: Lane, os: Store, os': Store)
    requires LaneInv(log, lane, os) && Grows(os, os')
    ensures LaneInv(log, lane, os')
  {
  }

  lemma {:induction false} LanesAfter(c: Config, s: State, l: nat, s': State)
    requires LanesInv(c, s) && l < |s.lanes| && Grows(s.os, s'.os)
    requires |s'.lanes| == |s.lanes| && s'.lanes == s.lanes[l := s'.lanes[l]]
    requires LaneInv(c.logs[l], s'.lanes[l], s'.os)
    ensures LanesInv(c, s')
  {
    forall m | 0 <= m < |s'.lanes| ensures LaneInv(c.logs[m], s'.lanes[m], s'.os) {
      if m != l {
        LaneStable(c.logs[m], s.lanes[m], s.os, s'.os);
      }
    }
  }

  /** The log positions of a batch: each good record of a slice is in its `GoodDocs`, and back. */
  lemma {:induction false} SliceDocs(log: seq<Record>, a: nat, b: nat)
    requires a <= b <= |log|
    ensures forall i :: a <= i < b && Good(log[i]) ==> log[i].doc in GoodDocs(log[a..b])
    ensures forall d :: d in GoodDocs(log[a..b]) ==> Validate(d).Accepted?
    decreases b
  {
    if a < b {
      SliceDocs(log, a, b - 1);
      assert log[a..b][..b - a - 1] == log[a..b - 1];
    }
  }

  lemma {:induction false} NewestNext(log: seq<Record>, a: nat, b: nat)
    requires a < b <= |log|
    ensures var front := Newest(GoodDocs(log[a..b - 1]));
            Newest(GoodDocs(log[a..b])) == if Good(log[b - 1]) then Put(front, log[b - 1].doc) else front
  {
    var front, all := GoodDocs(log[a..b - 1]), GoodDocs(log[a..b]);
    assert log[a..b][..b - a - 1] == log[a..b - 1];
    if Good(log[b - 1]) {
      assert all[..|all| - 1] == front;
    } else {
      assert all == front;
    }
  }

  /** What the survivors of a slice do not cover is newer than every record of it. */
  lemma {:induction false} NewerThanSlice(log: seq<Record>, a: nat, b: nat, d: CanonicalDoc)
    requires a <= b <= |log| && Fresh(Newest(GoodDocs(log[a..b])), d)
    ensures forall j :: a <= j < b && Good(log[j]) && log[j].doc.docId == d.docId ==> log[j].doc.version < d.version
  {
    SliceDocs(log, a, b);
    NewestDominates(GoodDocs(log[a..b]));
  }

  /** The survivor of a batch, seen from the log: no earlier record of the slice has its version. */
  lemma {:induction false} SurvivorPosition(log: seq<Record>, a: nat, b: nat, id: string) returns (i: nat)
    requires a <= b <= |log| && id in Newest(GoodDocs(log[a..b]))
    ensures a <= i < b && Good(log[i]) && log[i].doc == Newest(GoodDocs(log[a..b]))[id] && log[i].doc.docId == id
    ensures forall j :: a <= j < i && Good(log[j]) && log[j].doc.docId == id ==> log[j].doc.version < log[i].doc.version
    decreases b
  {
    NotEmpty(log, a, b, id);
    SurvivorStep(log, a, b, id);
    if Survives(log, a, b, id) {
      i := b - 1;
      NewerThanSlice(log, a, b - 1, log[i].doc);
    } else {
      i := SurvivorPosition(log, a, b - 1, id);
    }
  }

  lemma {:induction false} NotEmpty(log: seq<Record>, a: nat, b: nat, id: string)
    requires a <= b <= |log| && id in Newest(GoodDocs(log[a..b]))
    ensures a < b
  {
  }

  /** The last record of the slice takes the place of the survivor of `id`. */
  predicate Survives(log: seq<Record>, a: nat, b: nat, id: string)
    requires a < b <= |log|
  {
    var last := log[b - 1];
    Good(last) && last.doc.docId == id && Fresh(Newest(GoodDocs(log[a..b - 1])), last.doc)
  }

  lemma {:induction false} SurvivorStep(log: seq<Record>, a: nat, b: nat, id: string)
    requires a < b <= |log|
    ensures var front, all := Newest(GoodDocs(log[a..b - 1])), Newest(GoodDocs(log[a..b]));
            if Survives(log, a, b, id) then id in all && all[id] == log[b - 1].doc
            else (id in all <==> id in front) && (id in all ==> all[id] == front[id])
  {
    NewestNext(log, a, b);
  }

  /** Once the survivors are covered, so is every record between `start` and `polled`. */
  lemma {:induction false} BatchCovered(log: seq<Record>, lane: Lane, os: Store)
    requires LaneInv(log, lane, os) && AllCovered(Newest(lane.batch), os)
    ensures forall i :: 0 <= i < lane.polled && Good(log[i]) ==> Covers(os, log[i].doc)
  {
    forall i | 0 <= i < lane.polled && Good(log[i]) ensures Covers(os, log[i].doc) {
      if i >= lane.start {
        SliceDocs(log, lane.start, lane.polled);
        NewestDominates(lane.batch);
        NewestWellKeyed(lane.batch);
        assert Covers(os, Newest(lane.batch)[log[i].doc.docId]);
      }
    }
  }

  /** The part of the state that only `Write` and `Vector` touch. */
  ghost predicate SameStores(s: State, s': State) {
    && s'.os == s.os && s'.vec == s.vec && s'.accepted == s.accepted
    && s'.inDoubt == s.inDoubt && s'.overlapped == s.overlapped
  }

  lemma {:induction false} QuietStep(c: Config, s: State, l: nat, s': State)
    requires Inv(c, s) && l < |s.lanes| && SameStores(s, s') && s'.dead == s.dead
    requires |s'.lanes| == |s.lanes| && s'.lanes == s.lanes[l := s'.lanes[l]]
    requires LaneInv(c.logs[l], s'.lanes[l], s.os) && GuardInv(s')
    requires s'.lanes[l].polled == s.lanes[l].polled
    requires SubMap(Pending(s'.lanes[l].phase), Pending(s.lanes[l].phase))
    ensures Inv(c, s')
  {
    LanesAfter(c, s, l, s');
    PendingShrinks(s, s');
  }

  /** The actions that touch neither store, no offset and no log position. */
  ghost predicate Internal(a: Action) {
    a.Flush? || a.Filter? || a.Submit? || a.Embed? || a.Settle? || a.Remember? || a.Invalidate? || a.Bump? || a.Fail?
  }

  lemma {:induction false} InternalShape(c: Config, s: State, a: Action)
    requires Enabled(c, s, a) && Internal(a)
    ensures var s' := Do(c, s, a); SameStores(s, s') && s'.dead == s.dead && |s'.lanes| == |s.lanes|
    ensures var s' := Do(c, s, a); s'.lanes == s.lanes[a.l := s'.lanes[a.l]]
    ensures var s' := Do(c, s, a); s'.lanes[a.l] == s.lanes[a.l].(phase := s'.lanes[a.l].phase)
    ensures var s' := Do(c, s, a); SubMap(Pending(s'.lanes[a.l].phase), Pending(s.lanes[a.l].phase))
    ensures !a.Remember? ==> Do(c, s, a).guard == s.guard
  {
  }

  /** The phases before OpenSearch, and giving up. */
  lemma {:induction false} EarlyPhase(c: Config, s: State, a: Action)
    requires Enabled(c, s, a) && (a.Flush? || a.Filter? || a.Submit? || a.Fail?) && GuardInv(s)
    requires PhaseInv(s.lanes[a.l].phase, Newest(s.lanes[a.l].batch), s.os)
    ensures PhaseInv(Do(c, s, a).lanes[a.l].phase, Newest(s.lanes[a.l].batch), s.os)
  {
    NewestWellKeyed(s.lanes[a.l].batch);
  }

  /** The phases after it. */
  lemma {:induction false} LatePhase(c: Config, s: State, a: Action)
    requires Enabled(c, s, a) && (a.Embed? || a.Settle? || a.Remember? || a.Invalidate? || a.Bump?)
    requires PhaseInv(s.lanes[a.l].phase, Newest(s.lanes[a.l].batch), s.os)
    ensures PhaseInv(Do(c, s, a).lanes[a.l].phase, Newest(s.lanes[a.l].batch), s.os)
  {
  }

  lemma {:induction false} InternalGuard(c: Config, s: State, a: Action)
    requires Enabled(c, s, a) && Internal(a) && GuardInv(s)
    requires PhaseInv(s.lanes[a.l].phase, Newest(s.lanes[a.l].batch), s.os)
    ensures GuardInv(Do(c, s, a))
  {
    NewestWellKeyed(s.lanes[a.l].batch);
  }

  lemma {:induction false} InternalPhase(c: Config, s: State, a: Action)
    requires Enabled(c, s, a) && Internal(a) && GuardInv(s)
    requires PhaseInv(s.lanes[a.l].phase, Newest(s.lanes[a.l].batch), s.os)
    ensures PhaseInv(Do(c, s, a).lanes[a.l].phase, Newest(s.lanes[a.l].batch), s.os)
    ensures GuardInv(Do(c, s, a))
  {
    InternalGuard(c, s, a);
    if a.Flush? || a.Filter? || a.Submit? || a.Fail? {
      EarlyPhase(c, s, a);
    } else {
      LatePhase(c, s, a);
    }
  }

  lemma {:induction false} InternalStep(c: Config, s: State, a: Action)
    requires Inv(c, s) && Enabled(c, s, a) && Internal(a)
    ensures Inv(c, Do(c, s, a))
  {
    assert LaneInv(c.logs[a.l], s.lanes[a.l], s.os);
    InternalShape(c, s, a);
    InternalPhase(c, s, a);
    QuietStep(c, s, a.l, Do(c, s, a));
  }

  lemma {:induction false} AckStep(c: Config, s: State, l: nat, ok: bool)
    requires Inv(c, s) && Enabled(c, s, Ack(l, ok))
    ensures Inv(c, Do(c, s, Ack(l, ok)))
  {
    var lane, log := s.lanes[l], c.logs[l];
    assert LaneInv(log, lane, s.os);
    BatchCovered(log, lane, s.os);
    assert log[lane.polled..lane.polled] == [];
    QuietStep(c, s, l, Do(c, s, Ack(l, ok)));
  }

  lemma {:induction false} PollShape(c: Config, s: State, l: nat, count: nat)
    requires Enabled(c, s, Poll(l, count)) && LaneInv(c.logs[l], s.lanes[l], s.os)
    ensures LaneInv(c.logs[l], Do(c, s, Poll(l, count)).lanes[l], s.os)
  {
    var lane, log := s.lanes[l], c.logs[l];
    var next := lane.polled + count;
    GoodDocsConcat(log[lane.start..lane.polled], log[lane.polled..next]);
    assert log[lane.start..lane.polled] + log[lane.polled..next] == log[lane.start..next];
  }

  lemma {:induction false} PollDead(c: Config, s: State, l: nat, count: nat)
    requires Enabled(c, s, Poll(l, count)) && DeadInv(c, s)
    ensures DeadInv(c, Do(c, s, Poll(l, count)))
  {
  }

  /** No lane gained a pending write, so what is known of the pending ones still holds. */
  lemma {:induction false} PendingShrinks(s: State, s': State)
    requires s'.os == s.os && s'.accepted == s.accepted && s'.overlapped == s.overlapped && NoHiddenOverlap(s)
    requires |s'.lanes| == |s.lanes| && forall m :: 0 <= m < |s.lanes| ==> PendingInv(s, m)
    requires forall m :: 0 <= m < |s.lanes| ==> SubMap(Pending(s'.lanes[m].phase), Pending(s.lanes[m].phase))
    ensures NoHiddenOverlap(s') && forall m :: 0 <= m < |s'.lanes| ==> PendingInv(s', m)
  {
    forall m, n, id | 0 <= m < n < |s'.lanes| && Between(s', m, id) && Between(s', n, id) ensures id in s'.overlapped {
      assert Between(s, m, id) && Between(s, n, id);
    }
    forall m | 0 <= m < |s'.lanes| ensures PendingInv(s', m) {
      assert PendingInv(s, m);
    }
  }

  lemma {:induction false} PollStep(c: Config, s: State, l: nat, count: nat)
    requires Inv(c, s) && Enabled(c, s, Poll(l, count))
    ensures Inv(c, Do(c, s, Poll(l, count)))
  {
    var s' := Do(c, s, Poll(l, count));
    PollShape(c, s, l, count);
    PollDead(c, s, l, count);
    LanesAfter(c, s, l, s');
    PendingShrinks(s, s');
  }

  lemma {:induction false} CrashLanes(c: Config, s: State)
    requires LaneSide(c, s) && Enabled(c, s, Crash)
    ensures LaneSide(c, Do(c, s, Crash))
  {
    var s' := Do(c, s, Crash);
    forall l | 0 <= l < |s'.lanes| ensures LaneInv(c.logs[l], s'.lanes[l], s'.os) {
      assert LaneInv(c.logs[l], s.lanes[l], s.os);
      assert c.logs[l][s.lanes[l].committed..s.lanes[l].committed] == [];
    }
  }

  lemma {:induction false} CrashStep(c: Config, s: State)
    requires Inv(c, s) && Enabled(c, s, Crash)
    ensures Inv(c, Do(c, s, Crash))
  {
    CrashLanes(c, s);
    CrashStores(c, s);
  }

  /** No write is on its way any more; the stores are as they were. */
  lemma {:induction false} CrashStores(c: Config, s: State)
    requires StoreSide(c, s) && Enabled(c, s, Crash)
    ensures StoreSide(c, Do(c, s, Crash))
  {
    var s' := Do(c, s, Crash);
    CrashShape(c, s);
    PendingShrinks(s, s');
    SameStoreFacts(c, s, s');
  }

  lemma {:induction false} CrashShape(c: Config, s: State)
    requires Enabled(c, s, Crash)
    ensures var s' := Do(c, s, Crash);
            SameStores(s, s') && |s'.lanes| == |s.lanes| &&
            forall m :: 0 <= m < |s'.lanes| ==> Pending(s'.lanes[m].phase) == map[]
  {
  }

  lemma {:induction false} SameStoreFacts(c: Config, s: State, s': State)
    requires SameStores(s, s') && AuthorityInv(s) && ProvenanceInv(c, s) && VectorInv(s) && AgreementInv(s)
    ensures AuthorityInv(s') && ProvenanceInv(c, s') && VectorInv(s') && AgreementInv(s')
  {
    assert forall id :: SameEvent(s', id) == SameEvent(s, id);
  }

  /** What a lane submits is the first record of its version on that lane, unless it is stale. */
  lemma {:induction false} SurvivorIsFirst(c: Config, s: State, l: nat, id: string)
    requires LanesInv(c, s) && l < |s.lanes| && id in Newest(s.lanes[l].batch)
    ensures Newest(s.lanes[l].batch)[id].docId == id
    ensures Fresh(s.os, Newest(s.lanes[l].batch)[id]) ==> FirstSomewhere(c, Newest(s.lanes[l].batch)[id])
  {
    var lane, log := s.lanes[l], c.logs[l];
    assert LaneInv(log, lane, s.os);
    var i := SurvivorPosition(log, lane.start, lane.polled, id);
    var d := log[i].doc;
    if Fresh(s.os, d) {
      forall j | 0 <= j < i && Good(log[j]) && log[j].doc.docId == id ensures log[j].doc.version != d.version {
        if j < lane.start {
          assert Covers(s.os, log[j].doc);
        }
      }
      assert FirstAt(log, i, d);
    }
  }

  /** A bulk item that OpenSearch takes. */
  ghost predicate Takes(c: Config, s: State, l: nat, id: string, d: CanonicalDoc) {
    && Enabled(c, s, Write(l, id)) && s.lanes[l].phase.todo[id] == d
    && Fresh(s.os, d) && d.docId == id && FirstSomewhere(c, d)
  }

  lemma {:induction false} TakenLane(c: Config, s: State, l: nat, id: string, d: CanonicalDoc)
    requires Takes(c, s, l, id, d) && LaneInv(c.logs[l], s.lanes[l], s.os)
    ensures LaneInv(c.logs[l], Do(c, s, Write(l, id)).lanes[l], s.os[id := d])
  {
    LaneStable(c.logs[l], s.lanes[l], s.os, s.os[id := d]);
  }

  lemma {:induction false} TakenAuthority(s: State, s': State, d: CanonicalDoc)
    requires AuthorityInv(s) && Fresh(s.os, d)
    requires s'.os == s.os[d.docId := d] && s'.accepted == s.accepted + {d}
    ensures AuthorityInv(s')
  {
    forall e | e in s.accepted && e.docId == d.docId ensures e.version < d.version {
      assert Covers(s.os, e);
    }
  }

  lemma {:induction false} TakenAgreement(s: State, s': State, d: CanonicalDoc)
    requires AgreementInv(s) && VectorInv(s) && Fresh(s.os, d) && (forall e :: e in s.accepted ==> Covers(s.os, e))
    requires s'.os == s.os[d.docId := d] && s'.accepted == s.accepted + {d} && s'.vec == s.vec
    requires s'.inDoubt == s.inDoubt + {d.docId} && s.overlapped <= s'.overlapped + {d.docId}
    ensures AgreementInv(s') && VectorInv(s')
  {
    forall id | id in s'.os && id !in s'.overlapped ensures id in s'.inDoubt <==> !SameEvent(s', id) {
      if id == d.docId {
        if id in s.vec {
          assert Covers(s.os, s.vec[id]);
        }
      } else {
        assert SameEvent(s, id) == SameEvent(s', id);
      }
    }
  }

  lemma {:induction false} TakenOverlap(c: Config, s: State, l: nat, id: string, d: CanonicalDoc)
    requires Takes(c, s, l, id, d) && NoHiddenOverlap(s)
    ensures NoHiddenOverlap(Do(c, s, Write(l, id)))
  {
    var s' := Do(c, s, Write(l, id));
    forall m, n, i | 0 <= m < n < |s'.lanes| && Between(s', m, i) && Between(s', n, i) ensures i in s'.overlapped {
      if i == id && (m == l || n == l) {
        var other := if m == l then n else m;
        assert Between(s, other, id);
      } else {
        assert Between(s, m, i) && Between(s, n, i);
      }
    }
  }

  lemma {:induction false} TakenPending(c: Config, s: State, l: nat, id: string, d: CanonicalDoc, m: nat)
    requires Takes(c, s, l, id, d) && m < |s.lanes| && PendingInv(s, m)
    ensures PendingInv(Do(c, s, Write(l, id)), m)
  {
    var s' := Do(c, s, Write(l, id));
    assert m != l && Between(s, m, id) ==> id in s'.overlapped;
  }

  lemma {:induction false} TakenShape(c: Config, s: State, l: nat, id: string, d: CanonicalDoc)
    requires Takes(c, s, l, id, d)
    ensures var s' := Do(c, s, Write(l, id)); |s'.lanes| == |s.lanes| && s'.lanes == s.lanes[l := s'.lanes[l]]
    ensures var s' := Do(c, s, Write(l, id));
            && s'.lanes[l].polled == s.lanes[l].polled && s'.guard == s.guard
            && s'.dead == s.dead
    ensures var s' := Do(c, s, Write(l, id));
            && s'.os == s.os[d.docId := d] && s'.accepted == s.accepted + {d}
            && s'.vec == s.vec
    ensures var s' := Do(c, s, Write(l, id));
            && s'.inDoubt == s.inDoubt + {d.docId}
            && s.overlapped <= s'.overlapped + {d.docId}
  {
  }

  lemma {:induction false} TakenLaneSide(c: Config, s: State, l: nat, id: string, d: CanonicalDoc)
    requires LaneSide(c, s) && Takes(c, s, l, id, d)
    ensures LaneSide(c, Do(c, s, Write(l, id)))
  {
    TakenShape(c, s, l, id, d);
    TakenLane(c, s, l, id, d);
    LanesAfter(c, s, l, Do(c, s, Write(l, id)));
  }

  lemma {:induction false} TakenStoreSide(c: Config, s: State, l: nat, id: string, d: CanonicalDoc)
    requires StoreSide(c, s) && Takes(c, s, l, id, d)
    ensures StoreSide(c, Do(c, s, Write(l, id)))
  {
    var s' := Do(c, s, Write(l, id));
    TakenShape(c, s, l, id, d);
    TakenAuthority(s, s', d);
    TakenAgreement(s, s', d);
    TakenOverlap(c, s, l, id, d);
    forall m | 0 <= m < |s'.lanes| ensures PendingInv(s', m) {
      TakenPending(c, s, l, id, d, m);
    }
  }

  lemma {:induction false} RejectedLane(c: Config, s: State, l: nat, id: string)
    requires Enabled(c, s, Write(l, id)) && LaneInv(c.logs[l], s.lanes[l], s.os)
    requires !Fresh(s.os, s.lanes[l].phase.todo[id])
    ensures LaneInv(c.logs[l], Do(c, s, Write(l, id)).lanes[l], s.os)
  {
  }

  lemma {:induction false} WriteStep(c: Config, s: State, l: nat, id: string)
    requires Inv(c, s) && Enabled(c, s, Write(l, id))
    ensures Inv(c, Do(c, s, Write(l, id)))
  {
    assert LaneInv(c.logs[l], s.lanes[l], s.os);
    var d := s.lanes[l].phase.todo[id];
    SurvivorIsFirst(c, s, l, id);
    if Fresh(s.os, d) {
      TakenLaneSide(c, s, l, id, d);
      TakenStoreSide(c, s, l, id, d);
    } else {
      RejectedLane(c, s, l, id);
      QuietStep(c, s, l, Do(c, s, Write(l, id)));
    }
  }

  lemma {:induction false} VectorLane(c: Config, s: State, l: nat, id: string)
    requires Enabled(c, s, Vector(l, id)) && LaneInv(c.logs[l], s.lanes[l], s.os)
    ensures LaneInv(c.logs[l], Do(c, s, Vector(l, id)).lanes[l], s.os)
  {
  }

  lemma {:induction false} VectorAgreement(s: State, s': State, id: string, d: CanonicalDoc)
    requires AgreementInv(s) && VectorInv(s) && d.docId == id && d in s.accepted
    requires id !in s.overlapped ==> id in s.os && s.os[id] == d
    requires s'.os == s.os && s'.vec == s.vec[id := d] && s'.accepted == s.accepted
    requires s'.inDoubt == s.inDoubt - {id} && s'.overlapped == s.overlapped
    ensures AgreementInv(s') && VectorInv(s')
  {
    forall i | i in s'.os && i !in s'.overlapped ensures i in s'.inDoubt <==> !SameEvent(s', i) {
      if i != id {
        assert SameEvent(s, i) == SameEvent(s', i);
      }
    }
  }

  lemma {:induction false} VectorShape(c: Config, s: State, l: nat, id: string)
    requires Enabled(c, s, Vector(l, id))
    ensures var s' := Do(c, s, Vector(l, id)); |s'.lanes| == |s.lanes| && s'.lanes == s.lanes[l := s'.lanes[l]]
    ensures var s' := Do(c, s, Vector(l, id)); s'.lanes[l] == s.lanes[l].(phase := s'.lanes[l].phase)
    ensures var s' := Do(c, s, Vector(l, id));
            && s'.vec == s.vec[id := s.lanes[l].phase.todo[id]]
            && s'.inDoubt == s.inDoubt - {id}
    ensures var s' := Do(c, s, Vector(l, id)); s' == s.(lanes := s'.lanes, vec := s'.vec, inDoubt := s'.inDoubt)
    ensures SubMap(Pending(Do(c, s, Vector(l, id)).lanes[l].phase), Pending(s.lanes[l].phase))
    ensures Between(s, l, id) && Pending(s.lanes[l].phase)[id] == s.lanes[l].phase.todo[id]
  {
  }

  lemma {:induction false} VectorLaneSide(c: Config, s: State, l: nat, id: string)
    requires LaneSide(c, s) && Enabled(c, s, Vector(l, id))
    ensures LaneSide(c, Do(c, s, Vector(l, id)))
  {
    VectorShape(c, s, l, id);
    VectorLane(c, s, l, id);
    LanesAfter(c, s, l, Do(c, s, Vector(l, id)));
  }

  lemma {:induction false} VectorPending(c: Config, s: State, l: nat, id: string)
    requires Enabled(c, s, Vector(l, id)) && NoHiddenOverlap(s) && forall m :: 0 <= m < |s.lanes| ==> PendingInv(s, m)
    ensures var s' := Do(c, s, Vector(l, id)); NoHiddenOverlap(s') && forall m :: 0 <= m < |s'.lanes| ==>
              PendingInv(s', m)
  {
    VectorShape(c, s, l, id);
    PendingShrinks(s, Do(c, s, Vector(l, id)));
  }

  lemma {:induction false} VectorStoreSide(c: Config, s: State, l: nat, id: string)
    requires StoreSide(c, s) && Enabled(c, s, Vector(l, id))
    ensures StoreSide(c, Do(c, s, Vector(l, id)))
  {
    var s' := Do(c, s, Vector(l, id));
    VectorPending(c, s, l, id);
    VectorShape(c, s, l, id);
    assert PendingInv(s, l);
    VectorAgreement(s, s', id, s.lanes[l].phase.todo[id]);
  }

  lemma {:induction false} StepInv(c: Config, s: State, a: Action)
    requires Inv(c, s) && Enabled(c, s, a)
    ensures Inv(c, Do(c, s, a))
  {
    match a
    case Poll(l, count) => PollStep(c, s, l, count);
    case Write(l, id) => WriteStep(c, s, l, id);
    case Vector(l, id) => VectorLaneSide(c, s, l, id); VectorStoreSide(c, s, l, id);
    case Ack(l, ok) => AckStep(c, s, l, ok);
    case Crash => CrashStep(c, s);
    case _ => InternalStep(c, s, a);
  }

  lemma {:induction false} RunInv(c: Config, s: State, acts: seq<Action>, t: State)
    requires Inv(c, s) && Reaches(c, s, acts, t)
    ensures Inv(c, t)
    decreases |acts|
  {
    if acts != [] {
      StepInv(c, s, acts[0]);
      RunInv(c, Do(c, s, acts[0]), acts[1..], t);
    }
  }

  lemma {:induction false} ReachableInv(c: Config, s: State)
    requires Reachable(c, s)
    ensures Inv(c, s)
  {
    var acts :| Reaches(c, Init(c), acts, s);
    InitInv(c);
    RunInv(c, Init(c), acts, s);
  }
}
