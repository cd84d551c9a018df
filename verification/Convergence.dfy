/** What the indexing protocol guarantees over whole runs, and exactly what it does not. */
module Convergence {
  import opened Contract
  import opened Stores
  import opened Protocol
  import opened Safety
  import opened Drain

  /** A committed offset never passes a record that still depends on this process. */
  lemma {:induction false} OffsetSafety(c: Config, s: State, l: nat, i: nat)
    requires Reachable(c, s) && l < |c.logs|
    ensures |s.lanes| == |c.logs| && s.lanes[l].committed <= s.lanes[l].start <= s.lanes[l].polled <= |c.logs[l]|
    ensures s.lanes[l].batch == GoodDocs(c.logs[l][s.lanes[l].start..s.lanes[l].polled])
    ensures i < s.lanes[l].committed && Good(c.logs[l][i]) ==> Covers(s.os, c.logs[l][i].doc)
    ensures i < s.lanes[l].committed && !Good(c.logs[l][i]) ==> (l, i) in s.dead
  {
    ReachableInv(c, s);
    assert LaneInv(c.logs[l], s.lanes[l], s.os);
  }

  lemma {:induction false} GuardBelowAuthority(c: Config, s: State, id: string)
    requires Reachable(c, s) && id in s.guard
    ensures id in s.os && s.guard[id] <= s.os[id].version
  {
    ReachableInv(c, s);
  }

  predicate Searchable(store: Store, id: string) {
    id in store && store[id].op != Delete
  }

  /** Every vector write was one OpenSearch had taken and is never ahead of it; and for an id whose
    * last event was taken with no earlier one still on its way, the stores hold the same version
    * exactly when no write of that id is in doubt. */
  lemma {:induction false} StoreAgreement(c: Config, s: State, id: string)
    requires Reachable(c, s)
    ensures id in s.vec ==> s.vec[id] in s.accepted && id in s.os && s.vec[id].version <= s.os[id].version
    ensures id in s.os && id !in s.overlapped ==>
              (id !in s.inDoubt <==> id in s.vec && s.vec[id].version == s.os[id].version)
    ensures id !in s.inDoubt && id !in s.overlapped ==> (Searchable(s.os, id) <==> Searchable(s.vec, id))
  {
    ReachableInv(c, s);
    if id in s.vec {
      assert Covers(s.os, s.vec[id]);
    }
  }

  predicate HasEvent(c: Config, d: CanonicalDoc) {
    exists l, i :: 0 <= l < |c.logs| && 0 <= i < |c.logs[l]| && Good(c.logs[l][i]) && c.logs[l][i].doc == d
  }

  /** `d` is the first event of its version on some lane, and no delivered event is newer. */
  ghost predicate Winner(c: Config, d: CanonicalDoc) {
    && FirstSomewhere(c, d)
    && forall e :: HasEvent(c, e) && e.docId == d.docId ==> e.version <= d.version
  }

  /** Safety of convergence: once everything delivered is flushed, whatever the interleaving,
    * batching, failures and restarts, each document ends at a winner. */
  lemma {:induction false} ConvergesToWinner(c: Config, s: State, id: string)
    requires Reachable(c, s) && Quiescent(c, s)
    ensures id in s.os <==> exists e :: HasEvent(c, e) && e.docId == id
    ensures id in s.os ==> s.os[id].docId == id && Winner(c, s.os[id])
  {
    ReachableInv(c, s);
    forall e | HasEvent(c, e) ensures Covers(s.os, e) {
      var l, i :| 0 <= l < |c.logs| && 0 <= i < |c.logs[l]| && Good(c.logs[l][i]) && c.logs[l][i].doc == e;
      QuiescentCovers(c, s, l, i);
    }
    if id in s.os {
      FirstIsEvent(c, s.os[id]);
    }
  }

  lemma {:induction false} QuiescentCovers(c: Config, s: State, l: nat, i: nat)
    requires Inv(c, s) && Quiescent(c, s) && l < |c.logs| && i < |c.logs[l]| && Good(c.logs[l][i])
    ensures Covers(s.os, c.logs[l][i].doc)
  {
    var lane := s.lanes[l];
    assert LaneInv(c.logs[l], lane, s.os) && Drained(c, s, l);
    if i >= lane.start {
      SliceDocs(c.logs[l], lane.start, lane.polled);
    }
  }

  lemma {:induction false} FirstIsEvent(c: Config, d: CanonicalDoc)
    requires FirstSomewhere(c, d)
    ensures HasEvent(c, d)
  {
    var l, i :| 0 <= l < |c.logs| && 0 <= i < |c.logs[l]| && FirstAt(c.logs[l], i, d);
  }

  /** `d` is stored, and none of the delivered events for its id is newer. */
  ghost predicate Settled(c: Config, os: Store, d: CanonicalDoc) {
    d.docId in os && os[d.docId] == d && forall e :: HasEvent(c, e) && e.docId == d.docId ==> e.version <= d.version
  }

  lemma {:induction false} SettledStays(c: Config, os: Store, docs: seq<CanonicalDoc>, d: CanonicalDoc)
    requires Settled(c, os, d) && forall e :: e in docs ==> HasEvent(c, e)
    ensures Settled(c, PutAll(os, docs), d)
  {
    if docs != [] {
      SettledStays(c, os, docs[..|docs| - 1], d);
      assert docs[|docs| - 1] in docs;
    }
  }

  lemma {:induction false} LogDocsAreEvents(c: Config, l: nat, a: nat, b: nat)
    requires l < |c.logs| && a <= b <= |c.logs[l]|
    ensures forall e :: e in GoodDocs(c.logs[l][a..b]) ==> HasEvent(c, e)
    decreases b
  {
    if a < b {
      LogDocsAreEvents(c, l, a, b - 1);
      assert c.logs[l][a..b][..b - a - 1] == c.logs[l][a..b - 1];
    }
  }

  /** Idle lanes can be drained one after another, and no settled document is disturbed. */
  lemma {:induction false} DrainFrom(c: Config, s: State, l: nat) returns (acts: seq<Action>, t: State)
    requires Reachable(c, s) && l <= |s.lanes| == |c.logs|
    requires forall m :: 0 <= m < |s.lanes| ==> s.lanes[m].phase.Polling?
    requires forall m :: 0 <= m < l ==> Drained(c, s, m)
    ensures Reaches(c, s, acts, t) && Reachable(c, t) && Quiescent(c, t)
    ensures forall d :: Settled(c, s.os, d) ==> Settled(c, t.os, d)
    decreases |s.lanes| - l
  {
    if l == |s.lanes| {
      acts, t := [], s;
    } else {
      var a, s1 := DrainOne(c, s, l);
      var b, u := DrainFrom(c, s1, l + 1);
      ReachesConcat(c, s, a, s1, b, u);
      acts, t := a + b, u;
    }
  }

  lemma {:induction false} DrainOne(c: Config, s: State, l: nat) returns (acts: seq<Action>, t: State)
    requires Reachable(c, s) && l < |s.lanes| == |c.logs|
    requires forall m :: 0 <= m < |s.lanes| ==> s.lanes[m].phase.Polling?
    ensures Reaches(c, s, acts, t) && Reachable(c, t) && |t.lanes| == |s.lanes| && Drained(c, t, l)
    ensures forall m :: 0 <= m < |t.lanes| ==> t.lanes[m].phase.Polling?
    ensures forall m :: 0 <= m < |s.lanes| && Drained(c, s, m) ==> Drained(c, t, m)
    ensures forall d :: Settled(c, s.os, d) ==> Settled(c, t.os, d)
    ensures s.lanes[l].start <= |c.logs[l]| && t.os == PutAll(s.os, GoodDocs(c.logs[l][s.lanes[l].start..]))
  {
    ReachableInv(c, s);
    acts, t := DrainLane(c, s, l);
    ReachableThen(c, s, acts, t);
    forall m | 0 <= m < |s.lanes| && Drained(c, s, m) ensures Drained(c, t, m) {
      assert m != l ==> t.lanes[m] == s.lanes[m];
    }
    DrainKeepsSettled(c, s.os, l, s.lanes[l].start);
  }

  lemma {:induction false} DrainKeepsSettled(c: Config, os: Store, l: nat, from: nat)
    requires l < |c.logs| && from <= |c.logs[l]|
    ensures forall d :: Settled(c, os, d) ==> Settled(c, PutAll(os, GoodDocs(c.logs[l][from..])), d)
  {
    var log := c.logs[l];
    forall d | Settled(c, os, d) ensures Settled(c, PutAll(os, GoodDocs(log[from..])), d) {
      LogDocsAreEvents(c, l, from, |log|);
      assert log[from..|log|] == log[from..];
      SettledStays(c, os, GoodDocs(log[from..]), d);
    }
  }

  /** Draining a lane onto empty stores leaves its first event of the highest version. */
  lemma {:induction false} FirstDrainedWins(c: Config, l: nat, i: nat, d: CanonicalDoc)
    requires Winner(c, d) && l < |c.logs| && i < |c.logs[l]| && FirstAt(c.logs[l], i, d)
    ensures Settled(c, Newest(GoodDocs(c.logs[l])), d)
  {
    var log := c.logs[l];
    assert log[0..|log|] == log;
    SliceDocs(log, 0, |log|);
    NewestDominates(GoodDocs(log));
    var j := SurvivorPosition(log, 0, |log|, d.docId);
    assert HasEvent(c, log[j].doc);
    assert i == j;
  }

  lemma {:induction false} WinnerIsReachable(c: Config, d: CanonicalDoc) returns (t: State)
    requires Winner(c, d)
    ensures Reachable(c, t) && Quiescent(c, t) && d.docId in t.os && t.os[d.docId] == d
  {
    var l, i :| 0 <= l < |c.logs| && 0 <= i < |c.logs[l]| && FirstAt(c.logs[l], i, d);
    assert Reaches(c, Init(c), [], Init(c));
    var a, s1 := DrainOne(c, Init(c), l);
    assert c.logs[l][0..] == c.logs[l];
    FirstDrainedWins(c, l, i, d);
    var b, u := DrainFrom(c, s1, 0);
    t := u;
    ReachesConcat(c, Init(c), a, s1, b, t);
  }

  /** The outcomes of the protocol, exactly: an event can be what a document ends at if and only
    * if it is a winner. */
  lemma {:induction false} OutcomesAreWinners(c: Config, d: CanonicalDoc)
    ensures Winner(c, d) <==> exists s :: Reachable(c, s) && Quiescent(c, s) && d.docId in s.os && s.os[d.docId] == d
  {
    if Winner(c, d) {
      var t := WinnerIsReachable(c, d);
    }
    forall s | Reachable(c, s) && Quiescent(c, s) && d.docId in s.os && s.os[d.docId] == d ensures Winner(c, d) {
      ConvergesToWinner(c, s, d.docId);
    }
  }

  /** Order independence, exactly: all complete runs end in the same index if and only if no
    * document has two different winners. */
  lemma {:induction false} OrderIndependence(c: Config)
    ensures (forall d, e :: Winner(c, d) && Winner(c, e) && d.docId == e.docId ==> d == e) <==>
            (forall s, t :: Reachable(c, s) && Quiescent(c, s) && Reachable(c, t) && Quiescent(c, t) ==> s.os == t.os)
  {
    if forall d, e :: Winner(c, d) && Winner(c, e) && d.docId == e.docId ==> d == e {
      forall s, t | Reachable(c, s) && Quiescent(c, s) && Reachable(c, t) && Quiescent(c, t) ensures s.os == t.os {
        SameOutcome(c, s, t);
      }
    }
    if forall s, t :: Reachable(c, s) && Quiescent(c, s) && Reachable(c, t) && Quiescent(c, t) ==> s.os == t.os {
      forall d, e | Winner(c, d) && Winner(c, e) && d.docId == e.docId ensures d == e {
        var s := WinnerIsReachable(c, d);
        var t := WinnerIsReachable(c, e);
      }
    }
  }

  lemma {:induction false} SameOutcome(c: Config, s: State, t: State)
    requires Reachable(c, s) && Quiescent(c, s) && Reachable(c, t) && Quiescent(c, t)
    requires forall d, e :: Winner(c, d) && Winner(c, e) && d.docId == e.docId ==> d == e
    ensures s.os == t.os
  {
    forall id ensures id in s.os <==> id in t.os {
      ConvergesToWinner(c, s, id);
      ConvergesToWinner(c, t, id);
    }
    forall id | id in s.os ensures s.os[id] == t.os[id] {
      ConvergesToWinner(c, s, id);
      ConvergesToWinner(c, t, id);
    }
  }

  /** The sufficient condition a source can promise, and with it the lanes, the batching and the
    * order of delivery stop mattering altogether: two deployments fed the same events agree. */
  lemma {:induction false} SameEventsSameIndex(c: Config, s: State, c': Config, s': State)
    requires Reachable(c, s) && Quiescent(c, s) && Reachable(c', s') && Quiescent(c', s')
    requires forall d :: HasEvent(c, d) <==> HasEvent(c', d)
    requires forall d, e :: HasEvent(c, d) && HasEvent(c, e) && d.docId == e.docId && d.version == e.version ==> d == e
    ensures s.os == s'.os
  {
    forall id ensures id in s.os <==> id in s'.os {
      ConvergesToWinner(c, s, id);
      ConvergesToWinner(c', s', id);
    }
    forall id | id in s.os ensures s.os[id] == s'.os[id] {
      ConvergesToWinner(c, s, id);
      ConvergesToWinner(c', s', id);
      FirstIsEvent(c, s.os[id]);
      FirstIsEvent(c', s'.os[id]);
    }
  }

  /** No reachable state is stuck: a restart followed by a drain completes. */
  lemma {:induction false} AlwaysRecoverable(c: Config, s: State) returns (acts: seq<Action>, t: State)
    requires Reachable(c, s)
    ensures Reaches(c, s, acts, t) && Quiescent(c, t) && Reachable(c, t)
  {
    ReachableInv(c, s);
    var s1 := Do(c, s, Crash);
    One(c, s, Crash, [], s1);
    ReachableThen(c, s, [Crash] + [], s1);
    var a, u := DrainFrom(c, s1, 0);
    One(c, s, Crash, a, u);
    acts, t := [Crash] + a, u;
  }

  lemma {:induction false} ReachableThen(c: Config, s: State, acts: seq<Action>, t: State)
    requires Reachable(c, s) && Reaches(c, s, acts, t)
    ensures Reachable(c, t)
  {
    var first :| Reaches(c, Init(c), first, s);
    ReachesConcat(c, Init(c), first, s, acts, t);
  }
}
