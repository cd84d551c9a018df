/** Two ways in which the stores end up different although every record was applied and every
  * offset committed: a write left in doubt, and two lanes carrying one document at once. */
module Divergence {
  import opened Contract
  import opened Stores
  import opened Protocol
  import opened Safety
  import opened Drain

  /** A flush up to the last answer of the bulk request. */
  lemma {:induction false} HalfFlush(c: Config, s: State, l: nat) returns (acts: seq<Action>, t: State)
    requires OnLane(c, s, l) && s.lanes[l].phase.Polling? && s.lanes[l].batch != [] && s.guard == map[]
    ensures var newest := Newest(s.lanes[l].batch);
            t.lanes == With(s.lanes, l, Writing(map[], Taken(s.os, newest))) && t.os == Merge(s.os, newest)
    ensures Reaches(c, s, acts, t) && t.vec == s.vec && t.guard == map[] && t.gens == s.gens
  {
    var newest := Newest(s.lanes[l].batch);
    NewestNonEmpty(s.lanes[l].batch);
    NewestWellKeyed(s.lanes[l].batch);
    NothingDropped(c, newest);
    var a, s1 := AskGuard(c, s, l);
    var b, u := SubmitAndWrite(c, s1, l);
    ReachesConcat(c, s, a, s1, b, u);
    WithTwice(s.lanes, l, s1.lanes[l].phase, u.lanes[l].phase);
    acts, t := a + b, u;
  }

  lemma {:induction false} SubmitAndWrite(c: Config, s: State, l: nat) returns (acts: seq<Action>, t: State)
    requires OnLane(c, s, l) && s.lanes[l].phase.Filtering? && s.lanes[l].phase.todo == map[]
    requires s.lanes[l].phase.kept != map[] && WellKeyed(s.lanes[l].phase.kept)
    ensures Reaches(c, s, acts, t) && t.vec == s.vec && t.guard == s.guard && t.gens == s.gens
    ensures var kept := s.lanes[l].phase.kept;
            t.lanes == With(s.lanes, l, Writing(map[], Taken(s.os, kept))) && t.os == Merge(s.os, kept)
  {
    var kept := s.lanes[l].phase.kept;
    var s1 := Do(c, s, Submit(l));
    var b, u := WriteAll(c, s1, l);
    WithTwice(s.lanes, l, s1.lanes[l].phase, u.lanes[l].phase);
    assert map[] + Taken(s.os, kept) == Taken(s.os, kept);
    One(c, s, Submit(l), b, u);
    acts, t := [Submit(l)] + b, u;
  }

  lemma {:induction false} NothingDropped(c: Config, newest: Store)
    ensures Kept(c, map[], newest) == newest
  {
  }

  lemma {:induction false} MergeAgain(os: Store, newest: Store)
    ensures Merge(Merge(os, newest), newest) == Merge(os, newest)
    ensures Taken(Merge(os, newest), newest) == map[]
  {
  }

  /** A flush of a first batch whose embedding call fails. */
  lemma {:induction false} FailedFlush(c: Config, s: State, l: nat) returns (acts: seq<Action>, t: State)
    requires OnLane(c, s, l) && s.lanes[l].phase == Polling && s.lanes[l].batch != []
    requires s.guard == map[] && s.os == map[] && s.vec == map[]
    ensures Reaches(c, s, acts, t) && t.lanes == s.lanes && t.os == Newest(s.lanes[l].batch) && t.vec == map[]
    ensures t.guard == map[] && t.gens == s.gens
  {
    var b, s2 := HalfFlush(c, s, l);
    TakenFromEmpty(Newest(s.lanes[l].batch));
    t := Do(c, s2, Fail(l));
    WithTwice(s.lanes, l, s2.lanes[l].phase, Polling);
    assert t.lanes == s.lanes;
    One(c, s2, Fail(l), [], t);
    acts := b + ([Fail(l)] + []);
    ReachesConcat(c, s, b, s2, [Fail(l)] + [], t);
  }

  /** The retry of that batch finds every item stale. */
  lemma {:induction false} StaleRetry(c: Config, s: State, l: nat) returns (acts: seq<Action>, t: State)
    requires OnLane(c, s, l) && s.lanes[l].phase == Polling && s.lanes[l].batch != []
    requires s.os == Newest(s.lanes[l].batch) && s.vec == map[] && s.guard == map[]
    ensures Reaches(c, s, acts, t) && t.os == s.os && t.vec == map[] && t.gens == s.gens
    ensures t.lanes == s.lanes[l := Lane(s.lanes[l].polled, s.lanes[l].polled, s.lanes[l].polled, [], Polling)]
  {
    var batch := s.lanes[l].batch;
    NewestWellKeyed(batch);
    MergeAgain(map[], Newest(batch));
    TakenFromEmpty(Newest(batch));
    CompactionIsExact(s.os, batch);
    acts, t := FlushAll(c, s, l);
  }

  /** OpenSearch answers, the embedding call fails, and the retry finds every item stale: for
    * every log with anything to index, a complete run leaves the vector store empty and no generation
    * bumped. */
  lemma {:induction false} FailedEmbeddingIsNeverRetried(log: seq<Record>, useGuard: bool) returns (t: State)
    requires GoodDocs(log) != []
    ensures var c := Config([log], useGuard); Reachable(c, t) && Quiescent(c, t) && t.lanes[0].committed == |log|
    ensures t.os == Newest(GoodDocs(log)) && t.vec == map[] && t.gens == map[]
  {
    var c := Config([log], useGuard);
    var a, s1 := AllPolled(c);
    var b, s2 := FailedFlush(c, s1, 0);
    var d, s3 := StaleRetry(c, s2, 0);
    ReachesConcat(c, s1, b, s2, d, s3);
    ReachesConcat(c, Init(c), a, s1, b + d, s3);
    t := s3;
  }

  lemma {:induction false} AllPolled(c: Config) returns (acts: seq<Action>, t: State)
    requires |c.logs| == 1
    ensures Reaches(c, Init(c), acts, t) && OnLane(c, t, 0)
    ensures t.guard == map[] && t.os == map[] && t.vec == map[] && t.gens == map[]
    ensures t.lanes[0].phase == Polling && t.lanes[0].polled == |c.logs[0]| && t.lanes[0].batch == GoodDocs(c.logs[0])
  {
    InitInv(c);
    var a, s := PollAll(c, Init(c), 0);
    assert c.logs[0][0..] == c.logs[0];
    t := s;
    One(c, Init(c), a, [], t);
    acts := [a] + [];
  }

  /** Two lanes between the stores with one document: the older vector write lands last. */
  lemma {:induction false} OverlappingLanesCanRegress(older: CanonicalDoc, newer: CanonicalDoc, useGuard: bool)
    returns (t: State)
    requires Validate(older).Accepted? && Validate(newer).Accepted?
    requires older.docId == newer.docId && older.version < newer.version
    ensures var c := Config([[Parsed(older)], [Parsed(newer)]], useGuard); Reachable(c, t) && Quiescent(c, t)
    ensures older.docId in t.os && older.docId in t.vec && t.os[older.docId] == newer && t.vec[older.docId] == older
  {
    var c := Config([[Parsed(older)], [Parsed(newer)]], useGuard);
    var a, s1 := OlderHalf(c, older, newer);
    var b, s2 := NewerWhole(c, s1, older, newer);
    var d, s3 := OlderRest(c, s2, older, newer);
    ReachesConcat(c, s1, b, s2, d, s3);
    ReachesConcat(c, Init(c), a, s1, b + d, s3);
    t := s3;
  }

  lemma {:induction false} OneDoc(d: CanonicalDoc)
    requires Validate(d).Accepted?
    ensures GoodDocs([Parsed(d)]) == [d] && Newest([d]) == map[d.docId := d]
  {
    var log := [Parsed(d)];
    assert log[..|log| - 1] == [];
    assert GoodDocs(log) == GoodDocs([]) + [d];
    NewestOfOne(d);
  }

  lemma {:induction false} NewestOfOne(d: CanonicalDoc)
    ensures Newest([d]) == map[d.docId := d]
  {
    var docs := [d];
    assert docs[..|docs| - 1] == [];
    assert PutAll(map[], []) == map[];
    assert Newest(docs) == Put(map[], d);
  }

  lemma {:induction false} TakenFromEmpty(newest: Store)
    ensures Merge(map[], newest) == newest && Taken(map[], newest) == newest
  {
  }

  lemma {:induction false} OlderHalf(c: Config, older: CanonicalDoc, newer: CanonicalDoc)
    returns (acts: seq<Action>, t: State)
    requires c.logs == [[Parsed(older)], [Parsed(newer)]] && Validate(older).Accepted?
    ensures Reaches(c, Init(c), acts, t) && t.guard == map[] && t.vec == map[] && t.os == map[older.docId := older]
    ensures |t.lanes| == 2 && t.lanes[1] == Lane(0, 0, 0, [], Polling) && t.lanes[0].polled == 1
    ensures t.lanes[0].phase == Embedding(map[older.docId := older], map[older.docId := older])
  {
    var a, s1 := OlderPolled(c, older, newer);
    OneDoc(older);
    var b, s2 := HalfFlush(c, s1, 0);
    TakenFromEmpty(map[older.docId := older]);
    t := Do(c, s2, Embed(0));
    acts := ThenEmbed(c, Init(c), a, s1, b, s2);
  }

  lemma {:induction false} OlderPolled(c: Config, older: CanonicalDoc, newer: CanonicalDoc)
    returns (a: Action, t: State)
    requires c.logs == [[Parsed(older)], [Parsed(newer)]] && Validate(older).Accepted?
    ensures Enabled(c, Init(c), a) && t == Do(c, Init(c), a) && t.guard == map[] && t.vec == map[] && t.os == map[]
    ensures |t.lanes| == 2 && t.lanes[1] == Lane(0, 0, 0, [], Polling)
    ensures t.lanes[0].polled == 1 && t.lanes[0].phase == Polling && t.lanes[0].batch == [older]
  {
    InitInv(c);
    OneDoc(older);
    a, t := PollAll(c, Init(c), 0);
    assert c.logs[0][0..] == [Parsed(older)];
  }

  lemma {:induction false} ThenEmbed(c: Config, s: State, a: Action, s1: State, b: seq<Action>, s2: State)
    returns (acts: seq<Action>)
    requires Enabled(c, s, a) && Do(c, s, a) == s1 && Reaches(c, s1, b, s2) && Enabled(c, s2, Embed(0))
    ensures Reaches(c, s, acts, Do(c, s2, Embed(0)))
  {
    var t := Do(c, s2, Embed(0));
    One(c, s2, Embed(0), [], t);
    ReachesConcat(c, s1, b, s2, [Embed(0)] + [], t);
    acts := [a] + (b + ([Embed(0)] + []));
    One(c, s, a, b + ([Embed(0)] + []), t);
  }

  lemma {:induction false} NewerWhole(c: Config, s: State, older: CanonicalDoc, newer: CanonicalDoc)
    returns (acts: seq<Action>, t: State)
    requires c.logs == [[Parsed(older)], [Parsed(newer)]] && Validate(newer).Accepted?
    requires older.docId == newer.docId && older.version < newer.version
    requires |s.lanes| == 2 && s.lanes[1] == Lane(0, 0, 0, [], Polling)
    requires s.guard == map[] && s.vec == map[] && s.os == map[older.docId := older]
    ensures Reaches(c, s, acts, t) && t.os == map[newer.docId := newer] && t.vec == map[newer.docId := newer]
    ensures t.lanes == s.lanes[1 := Lane(1, 1, 1, [], Polling)]
  {
    OneDoc(newer);
    assert c.logs[1][0..1] == [Parsed(newer)];
    var s1 := Do(c, s, Poll(1, 1));
    var b, s2 := FlushAll(c, s1, 1);
    assert PutAll(s.os, [newer]) == map[newer.docId := newer] by {
      assert [newer][..0] == [];
    }
    SetTwice(s.lanes, 1, s1.lanes[1], s2.lanes[1]);
    One(c, s, Poll(1, 1), b, s2);
    acts, t := [Poll(1, 1)] + b, s2;
  }

  lemma {:induction false} OlderRest(c: Config, s: State, older: CanonicalDoc, newer: CanonicalDoc)
    returns (acts: seq<Action>, t: State)
    requires c.logs == [[Parsed(older)], [Parsed(newer)]] && older.docId == newer.docId
    requires |s.lanes| == 2 && s.lanes[1] == Lane(1, 1, 1, [], Polling) && s.lanes[0].polled == 1
    requires s.lanes[0].phase == Embedding(map[older.docId := older], map[older.docId := older])
    requires s.os == map[newer.docId := newer] && s.vec == map[newer.docId := newer]
    ensures Reaches(c, s, acts, t) && Quiescent(c, t)
    ensures t.os == map[newer.docId := newer] && t.vec == map[older.docId := older]
  {
    var a, s1 := VectorAll(c, s, 0);
    var b, s2 := SettleFlush(c, s1, 0);
    assert map[newer.docId := newer] + map[older.docId := older] == map[older.docId := older];
    ReachesConcat(c, s, a, s1, b, s2);
    acts, t := a + b, s2;
  }
}
