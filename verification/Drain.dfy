/** Runs in which nothing goes wrong: from an idle lane, a flush can always be carried through,
  * and its effect on both stores is known exactly. */
module Drain {
  import opened Sets
  import opened Contract
  import opened Stores
  import opened Protocol
  import opened Safety

  /** The entries a flush would still submit after asking the guard. */
  function Kept(c: Config, guard: map<string, int>, todo: Store): Store {
    map id | id in todo && (!c.useGuard || ShouldApply(guard, todo[id])) :: todo[id]
  }

  lemma {:induction false} Shrinks(m: Store, id: string)
    requires id in m
    ensures |m - {id}| < |m|
  {
    assert (m - {id}).Keys == m.Keys - {id};
  }

  lemma {:induction false} SetTwice(lanes: seq<Lane>, l: nat, a: Lane, b: Lane)
    requires l < |lanes|
    ensures lanes[l := a][l := b] == lanes[l := b]
  {
  }

  lemma {:induction false} SetSame(lanes: seq<Lane>, l: nat)
    requires l < |lanes|
    ensures lanes[l := lanes[l]] == lanes
  {
  }

  function With(lanes: seq<Lane>, l: nat, p: Phase): seq<Lane>
    requires l < |lanes|
  {
    lanes[l := lanes[l].(phase := p)]
  }

  lemma {:induction false} WithTwice(lanes: seq<Lane>, l: nat, p: Phase, q: Phase)
    requires l < |lanes|
    ensures With(With(lanes, l, p), l, q) == With(lanes, l, q)
    ensures With(lanes, l, lanes[l].phase) == lanes
  {
    SetTwice(lanes, l, lanes[l].(phase := p), lanes[l].(phase := q));
    SetSame(lanes, l);
  }

  lemma {:induction false} One(c: Config, s: State, a: Action, acts: seq<Action>, t: State)
    requires Enabled(c, s, a) && Reaches(c, Do(c, s, a), acts, t)
    ensures Reaches(c, s, [a] + acts, t)
  {
    assert ([a] + acts)[1..] == acts;
  }

  function Filtered(c: Config, s: State, l: nat, id: string): State
    requires OnLane(c, s, l) && s.lanes[l].phase.Filtering? && id in s.lanes[l].phase.todo
  {
    var p := s.lanes[l].phase;
    SetPhase(s, l, Filtering(p.todo - {id}, p.kept + Kept(c, s.guard, map[id := p.todo[id]])))
  }

  lemma {:induction false} FilterOne(c: Config, s: State, l: nat, id: string, acts: seq<Action>, t: State)
    requires OnLane(c, s, l) && s.lanes[l].phase.Filtering? && id in s.lanes[l].phase.todo
    requires Reaches(c, Filtered(c, s, l, id), acts, t)
    ensures Reaches(c, s, [Filter(l, id)] + acts, t)
  {
    var p := s.lanes[l].phase;
    KeptOne(c, s.guard, p.kept, id, p.todo[id]);
    One(c, s, Filter(l, id), acts, t);
  }

  lemma {:induction false} KeptOne(c: Config, guard: map<string, int>, kept: Store, id: string, d: CanonicalDoc)
    ensures kept + Kept(c, guard, map[id := d]) == if !c.useGuard || ShouldApply(guard, d) then kept[id := d] else kept
  {
  }

  lemma {:induction false} KeptSplit(c: Config, guard: map<string, int>, kept: Store, todo: Store, id: string)
    requires id in todo
    ensures (kept + Kept(c, guard, map[id := todo[id]])) + Kept(c, guard, todo - {id}) == kept + Kept(c, guard, todo)
  {
  }

  lemma {:induction false} FilteredShape(c: Config, s: State, l: nat, id: string)
    requires OnLane(c, s, l) && s.lanes[l].phase.Filtering? && id in s.lanes[l].phase.todo
    ensures var s1 := Filtered(c, s, l, id);
            && OnLane(c, s1, l) && s1.lanes[l].phase.Filtering?
            && |s1.lanes[l].phase.todo| < |s.lanes[l].phase.todo|
  {
    Shrinks(s.lanes[l].phase.todo, id);
  }

  lemma {:induction false} FilteredNothing(c: Config, s: State, l: nat)
    requires OnLane(c, s, l) && s.lanes[l].phase.Filtering? && s.lanes[l].phase.todo == map[]
    ensures AllFiltered(c, s, l) == s
  {
    var p := s.lanes[l].phase;
    assert p.kept + Kept(c, s.guard, p.todo) == p.kept;
    WithTwice(s.lanes, l, p, p);
  }

  lemma {:induction false} FilterAll(c: Config, s: State, l: nat) returns (acts: seq<Action>, t: State)
    requires OnLane(c, s, l) && s.lanes[l].phase.Filtering?
    ensures Reaches(c, s, acts, t)
    ensures t == AllFiltered(c, s, l)
    decreases |s.lanes[l].phase.todo|
  {
    var todo := s.lanes[l].phase.todo;
    if todo == map[] {
      FilteredNothing(c, s, l);
      acts, t := [], s;
    } else {
      var id :| id in todo;
      FilteredShape(c, s, l, id);
      acts, t := FilterAll(c, Filtered(c, s, l, id), l);
      FilteredRest(c, s, l, id);
      FilterOne(c, s, l, id, acts, t);
      acts := [Filter(l, id)] + acts;
    }
  }

  /** Filtering one document first makes no difference to where the filter phase ends. */
  lemma {:induction false} FilteredRest(c: Config, s: State, l: nat, id: string)
    requires OnLane(c, s, l) && s.lanes[l].phase.Filtering? && id in s.lanes[l].phase.todo
    ensures var s1 := Filtered(c, s, l, id); AllFiltered(c, s1, l) == AllFiltered(c, s, l)
  {
    var p, s1 := s.lanes[l].phase, Filtered(c, s, l, id);
    KeptSplit(c, s.guard, p.kept, p.todo, id);
    WithTwice(s.lanes, l, s1.lanes[l].phase, AllFiltered(c, s, l).lanes[l].phase);
  }

  function AllFiltered(c: Config, s: State, l: nat): State
    requires OnLane(c, s, l) && s.lanes[l].phase.Filtering?
  {
    SetPhase(s, l, Filtering(map[], s.lanes[l].phase.kept + Kept(c, s.guard, s.lanes[l].phase.todo)))
  }

  lemma {:induction false} MergeSplit(os: Store, todo: Store, id: string)
    requires id in todo && WellKeyed(todo)
    ensures Merge(Put(os, todo[id]), todo - {id}) == Merge(os, todo)
  {
    var a, b := Merge(Put(os, todo[id]), todo - {id}), Merge(os, todo);
    assert a.Keys == b.Keys;
    forall i | i in a ensures a[i] == b[i] {
    }
  }

  lemma {:induction false} TakenSplit(os: Store, applied: Store, todo: Store, id: string)
    requires id in todo && WellKeyed(todo)
    ensures (applied + Taken(os, map[id := todo[id]])) + Taken(Put(os, todo[id]), todo - {id}) ==
              applied + Taken(os, todo)
  {
  }

  lemma {:induction false} WriteShape(c: Config, s: State, l: nat, id: string)
    requires OnLane(c, s, l) && s.lanes[l].phase.Writing? && id in s.lanes[l].phase.todo
    requires s.lanes[l].phase.todo[id].docId == id
    ensures var p, s1 := s.lanes[l].phase, DoWrite(s, l, id);
            s1.os == Put(s.os, p.todo[id]) && s1.vec == s.vec && s1.guard == s.guard && s1.gens == s.gens &&
            s1.lanes == With(s.lanes, l, Writing(p.todo - {id}, p.applied + Taken(s.os, map[id := p.todo[id]])))
  {
    var p := s.lanes[l].phase;
    TakenOne(p.applied, s.os, id, p.todo[id]);
  }

  lemma {:induction false} TakenOne(applied: Store, os: Store, id: string, d: CanonicalDoc)
    requires d.docId == id
    ensures applied + Taken(os, map[id := d]) == if Fresh(os, d) then applied[id := d] else applied
  {
  }

  ghost predicate Written(s: State, l: nat, t: State)
    requires l < |s.lanes| && s.lanes[l].phase.Writing?
  {
    var p := s.lanes[l].phase;
    && t.lanes == With(s.lanes, l, Writing(map[], p.applied + Taken(s.os, p.todo)))
    && t.os == Merge(s.os, p.todo) && t.vec == s.vec && t.guard == s.guard && t.gens == s.gens
  }

  lemma {:induction false} WrittenNothing(s: State, l: nat)
    requires l < |s.lanes| && s.lanes[l].phase.Writing? && s.lanes[l].phase.todo == map[]
    ensures Written(s, l, s)
  {
    var p := s.lanes[l].phase;
    assert p.applied + Taken(s.os, p.todo) == p.applied;
    assert Merge(s.os, p.todo) == s.os;
    WithTwice(s.lanes, l, p, p);
  }

  lemma {:induction false} WrittenOneMore(c: Config, s: State, l: nat, id: string, t: State)
    requires OnLane(c, s, l) && s.lanes[l].phase.Writing? && id in s.lanes[l].phase.todo
    requires WellKeyed(s.lanes[l].phase.todo)
    requires DoWrite(s, l, id).lanes[l].phase.Writing? && Written(DoWrite(s, l, id), l, t)
    ensures Written(s, l, t)
  {
    var p := s.lanes[l].phase;
    WriteShape(c, s, l, id);
    MergeSplit(s.os, p.todo, id);
    TakenSplit(s.os, p.applied, p.todo, id);
    WithTwice(s.lanes, l, DoWrite(s, l, id).lanes[l].phase, t.lanes[l].phase);
  }

  lemma {:induction false} WriteAll(c: Config, s: State, l: nat) returns (acts: seq<Action>, t: State)
    requires OnLane(c, s, l) && s.lanes[l].phase.Writing? && WellKeyed(s.lanes[l].phase.todo)
    ensures Reaches(c, s, acts, t) && Written(s, l, t)
    decreases |s.lanes[l].phase.todo|
  {
    var p := s.lanes[l].phase;
    if p.todo == map[] {
      WrittenNothing(s, l);
      acts, t := [], s;
    } else {
      var id :| id in p.todo;
      Shrinks(p.todo, id);
      acts, t := WriteAll(c, DoWrite(s, l, id), l);
      WrittenOneMore(c, s, l, id, t);
      One(c, s, Write(l, id), acts, t);
      acts := [Write(l, id)] + acts;
    }
  }

  lemma {:induction false} VectorsSplit(vec: Store, todo: Store, id: string)
    requires id in todo
    ensures vec[id := todo[id]] + (todo - {id}) == vec + todo
  {
  }

  /** Every point write of the phase has happened. */
  ghost predicate Vectored(s: State, l: nat, t: State)
    requires l < |s.lanes| && s.lanes[l].phase.Embedding?
  {
    && t.lanes == With(s.lanes, l, Embedding(map[], s.lanes[l].phase.applied))
    && t.os == s.os && t.vec == s.vec + s.lanes[l].phase.todo && t.guard == s.guard && t.gens == s.gens
  }

  lemma {:induction false} VectoredNothing(s: State, l: nat)
    requires l < |s.lanes| && s.lanes[l].phase.Embedding? && s.lanes[l].phase.todo == map[]
    ensures Vectored(s, l, s)
  {
    assert s.vec + s.lanes[l].phase.todo == s.vec;
    WithTwice(s.lanes, l, s.lanes[l].phase, s.lanes[l].phase);
  }

  lemma {:induction false} VectorShape(c: Config, s: State, l: nat, id: string)
    requires OnLane(c, s, l) && s.lanes[l].phase.Embedding? && id in s.lanes[l].phase.todo
    ensures Enabled(c, s, Vector(l, id)) && Do(c, s, Vector(l, id)) == DoVector(s, l, id)
    ensures var s1 := DoVector(s, l, id);
            OnLane(c, s1, l) && s1.lanes[l].phase.Embedding? && |s1.lanes[l].phase.todo| < |s.lanes[l].phase.todo|
  {
    Shrinks(s.lanes[l].phase.todo, id);
  }

  lemma {:induction false} VectoredOneMore(s: State, l: nat, id: string, t: State)
    requires l < |s.lanes| && s.lanes[l].phase.Embedding? && id in s.lanes[l].phase.todo
    requires DoVector(s, l, id).lanes[l].phase.Embedding? && Vectored(DoVector(s, l, id), l, t)
    ensures Vectored(s, l, t)
  {
    VectorsSplit(s.vec, s.lanes[l].phase.todo, id);
    WithTwice(s.lanes, l, DoVector(s, l, id).lanes[l].phase, t.lanes[l].phase);
  }

  lemma {:induction false} VectorAll(c: Config, s: State, l: nat) returns (acts: seq<Action>, t: State)
    requires OnLane(c, s, l) && s.lanes[l].phase.Embedding?
    ensures Reaches(c, s, acts, t) && Vectored(s, l, t)
    decreases |s.lanes[l].phase.todo|
  {
    if s.lanes[l].phase.todo == map[] {
      VectoredNothing(s, l);
      acts, t := [], s;
    } else {
      var id :| id in s.lanes[l].phase.todo;
      VectorShape(c, s, l, id);
      acts, t := VectorAll(c, DoVector(s, l, id), l);
      VectoredOneMore(s, l, id, t);
      One(c, s, Vector(l, id), acts, t);
      acts := [Vector(l, id)] + acts;
    }
  }

  lemma {:induction false} RememberAll(c: Config, s: State, l: nat)
    returns (acts: seq<Action>, t: State, tenants: set<int>)
    requires OnLane(c, s, l) && s.lanes[l].phase.Settling?
    ensures Reaches(c, s, acts, t)
    ensures t.lanes == With(s.lanes, l, Settling(map[], tenants))
    ensures t.os == s.os && t.vec == s.vec && t.gens == s.gens
    ensures s.lanes[l].phase.todo == map[] ==> tenants == s.lanes[l].phase.tenants
    decreases |s.lanes[l].phase.todo|
  {
    var p := s.lanes[l].phase;
    if p.todo == map[] {
      WithTwice(s.lanes, l, s.lanes[l].phase, s.lanes[l].phase);
      acts, t, tenants := [], s, p.tenants;
    } else {
      var id :| id in p.todo;
      Shrinks(p.todo, id);
      var s1 := Do(c, s, Remember(l, id));
      acts, t, tenants := RememberAll(c, s1, l);
      WithTwice(s.lanes, l, s1.lanes[l].phase, t.lanes[l].phase);
      One(c, s, Remember(l, id), acts, t);
      acts := [Remember(l, id)] + acts;
    }
  }

  lemma {:induction false} BumpAll(c: Config, s: State, l: nat) returns (acts: seq<Action>, t: State)
    requires OnLane(c, s, l) && s.lanes[l].phase.Bumping?
    ensures Reaches(c, s, acts, t)
    ensures t.lanes == With(s.lanes, l, Bumping({}))
    ensures t.os == s.os && t.vec == s.vec && (s.lanes[l].phase.tenants == {} ==> t.gens == s.gens)
    decreases |s.lanes[l].phase.tenants|
  {
    var tenants := s.lanes[l].phase.tenants;
    if tenants == {} {
      WithTwice(s.lanes, l, s.lanes[l].phase, s.lanes[l].phase);
      acts, t := [], s;
    } else {
      var tenant := AnyOf(tenants);
      var s1 := Do(c, s, Bump(l, tenant, true));
      acts, t := BumpAll(c, s1, l);
      WithTwice(s.lanes, l, s1.lanes[l].phase, t.lanes[l].phase);
      One(c, s, Bump(l, tenant, true), acts, t);
      acts := [Bump(l, tenant, true)] + acts;
    }
  }

  /** The end of a flush: the guard, the generations and the offsets. */
  lemma {:induction false} FinishFlush(c: Config, s: State, l: nat) returns (acts: seq<Action>, t: State)
    requires OnLane(c, s, l) && s.lanes[l].phase.Bumping?
    ensures Reaches(c, s, acts, t) && t.os == s.os && t.vec == s.vec
    ensures s.lanes[l].phase.tenants == {} ==> t.gens == s.gens
    ensures var n := s.lanes[l].polled; t.lanes == s.lanes[l := Lane(n, n, n, [], Polling)]
  {
    var a, s1 := BumpAll(c, s, l);
    t := Do(c, s1, Ack(l, true));
    One(c, s1, Ack(l, true), [], t);
    ReachesConcat(c, s, a, s1, [Ack(l, true)] + [], t);
    acts := a + ([Ack(l, true)] + []);
  }

  lemma {:induction false} SettleFlush(c: Config, s: State, l: nat) returns (acts: seq<Action>, t: State)
    requires OnLane(c, s, l) && s.lanes[l].phase.Embedding? && s.lanes[l].phase.todo == map[]
    ensures Reaches(c, s, acts, t) && t.os == s.os && t.vec == s.vec
    ensures s.lanes[l].phase.applied == map[] ==> t.gens == s.gens
    ensures var n := s.lanes[l].polled; t.lanes == s.lanes[l := Lane(n, n, n, [], Polling)]
  {
    var s1 := Do(c, s, Settle(l));
    var a, s2, tenants := RememberAll(c, s1, l);
    var s3 := Do(c, s2, Invalidate(l));
    var b, u := FinishFlush(c, s3, l);
    t := u;
    One(c, s2, Invalidate(l), b, t);
    ReachesConcat(c, s1, a, s2, [Invalidate(l)] + b, t);
    One(c, s, Settle(l), a + ([Invalidate(l)] + b), t);
    acts := [Settle(l)] + (a + ([Invalidate(l)] + b));
  }

  lemma {:induction false} WriteFlush(c: Config, s: State, l: nat) returns (acts: seq<Action>, t: State)
    requires OnLane(c, s, l) && s.lanes[l].phase.Writing? && s.lanes[l].phase.applied == map[]
    requires WellKeyed(s.lanes[l].phase.todo)
    ensures Reaches(c, s, acts, t)
    ensures var todo := s.lanes[l].phase.todo; t.os == Merge(s.os, todo) && t.vec == s.vec + Taken(s.os, todo)
    ensures Taken(s.os, s.lanes[l].phase.todo) == map[] ==> t.gens == s.gens
    ensures var n := s.lanes[l].polled; t.lanes == s.lanes[l := Lane(n, n, n, [], Polling)]
  {
    var a, s1 := WriteAll(c, s, l);
    assert map[] + Taken(s.os, s.lanes[l].phase.todo) == Taken(s.os, s.lanes[l].phase.todo);
    var s2 := Do(c, s1, Embed(l));
    var b, s3 := VectorAll(c, s2, l);
    var d, u := SettleFlush(c, s3, l);
    t := u;
    ReachesConcat(c, s2, b, s3, d, t);
    One(c, s1, Embed(l), b + d, t);
    ReachesConcat(c, s, a, s1, [Embed(l)] + (b + d), t);
    acts := a + ([Embed(l)] + (b + d));
  }

  /** Dropping what the guard knows to be stale changes neither store. */
  lemma {:induction false} GuardDropsOnlyStale(c: Config, guard: map<string, int>, os: Store, newest: Store)
    requires WellKeyed(newest) && forall id :: id in guard ==> id in os && guard[id] <= os[id].version
    ensures Merge(os, Kept(c, guard, newest)) == Merge(os, newest)
    ensures Taken(os, Kept(c, guard, newest)) == Taken(os, newest)
  {
  }

  lemma {:induction false} MergeNothing(os: Store, vec: Store)
    ensures Merge(os, map[]) == os && vec + Taken(os, map[]) == vec
  {
  }

  /** From the bulk request (or the early return) to the end of the flush. */
  lemma {:induction false} SubmitFlush(c: Config, s: State, l: nat) returns (acts: seq<Action>, t: State)
    requires OnLane(c, s, l) && s.lanes[l].phase.Filtering? && s.lanes[l].phase.todo == map[]
    requires WellKeyed(s.lanes[l].phase.kept)
    ensures Reaches(c, s, acts, t)
    ensures var kept := s.lanes[l].phase.kept; t.os == Merge(s.os, kept) && t.vec == s.vec + Taken(s.os, kept)
    ensures Taken(s.os, s.lanes[l].phase.kept) == map[] ==> t.gens == s.gens
    ensures var n := s.lanes[l].polled; t.lanes == s.lanes[l := Lane(n, n, n, [], Polling)]
  {
    var kept := s.lanes[l].phase.kept;
    if kept == map[] {
      acts, t := FinishFlush(c, SetPhase(s, l, Bumping({})), l);
      MergeNothing(s.os, s.vec);
    } else {
      acts, t := WriteFlush(c, SetPhase(s, l, Writing(kept, map[])), l);
    }
    SetTwice(s.lanes, l, Do(c, s, Submit(l)).lanes[l], t.lanes[l]);
    One(c, s, Submit(l), acts, t);
    acts := [Submit(l)] + acts;
  }

  lemma {:induction false} AskGuard(c: Config, s: State, l: nat) returns (acts: seq<Action>, t: State)
    requires OnLane(c, s, l) && s.lanes[l].phase.Polling? && s.lanes[l].batch != []
    ensures Reaches(c, s, acts, t)
    ensures t == s.(lanes := With(s.lanes, l, Filtering(map[], Kept(c, s.guard, Newest(s.lanes[l].batch)))))
  {
    var newest := Newest(s.lanes[l].batch);
    var s1 := SetPhase(s, l, Filtering(newest, map[]));
    acts, t := FilterAll(c, s1, l);
    assert map[] + Kept(c, s.guard, newest) == Kept(c, s.guard, newest);
    WithTwice(s.lanes, l, s1.lanes[l].phase, t.lanes[l].phase);
    One(c, s, Flush(l), acts, t);
    acts := [Flush(l)] + acts;
  }

  /** A flush that meets no failure: both stores end as if the batch had been applied in order. */
  lemma {:induction false} FlushAll(c: Config, s: State, l: nat) returns (acts: seq<Action>, t: State)
    requires OnLane(c, s, l) && s.lanes[l].phase.Polling? && s.lanes[l].batch != [] && GuardInv(s) && WellKeyed(s.os)
    ensures Reaches(c, s, acts, t)
    ensures t.os == PutAll(s.os, s.lanes[l].batch) && t.vec == s.vec + Taken(s.os, Newest(s.lanes[l].batch))
    ensures Taken(s.os, Newest(s.lanes[l].batch)) == map[] ==> t.gens == s.gens
    ensures var n := s.lanes[l].polled; t.lanes == s.lanes[l := Lane(n, n, n, [], Polling)]
  {
    NewestWellKeyed(s.lanes[l].batch);
    CompactionIsExact(s.os, s.lanes[l].batch);
    GuardDropsOnlyStale(c, s.guard, s.os, Newest(s.lanes[l].batch));
    var a, s1 := AskGuard(c, s, l);
    var b, u := SubmitFlush(c, s1, l);
    SetTwice(s.lanes, l, s1.lanes[l], u.lanes[l]);
    ReachesConcat(c, s, a, s1, b, u);
    acts, t := a + b, u;
  }

  lemma {:induction false} PollAll(c: Config, s: State, l: nat) returns (a: Action, t: State)
    requires Inv(c, s) && l < |s.lanes| && s.lanes[l].phase.Polling?
    ensures Enabled(c, s, a) && t == Do(c, s, a) && Inv(c, t) && t.os == s.os && t.gens == s.gens
    ensures |t.lanes| == |s.lanes| && t.lanes == s.lanes[l := t.lanes[l]] && t.lanes[l].phase.Polling?
    ensures t.lanes[l].polled == |c.logs[l]| && s.lanes[l].start <= |c.logs[l]|
    ensures t.lanes[l].batch == GoodDocs(c.logs[l][s.lanes[l].start..])
  {
    assert LaneInv(c.logs[l], s.lanes[l], s.os);
    var count := |c.logs[l]| - s.lanes[l].polled;
    a := Poll(l, count);
    t := Do(c, s, a);
    PollStep(c, s, l, count);
    PollRest(c, s, l);
    PolledBatch(c.logs[l], t.lanes[l], t.os);
  }

  lemma {:induction false} PollRest(c: Config, s: State, l: nat)
    requires OnLane(c, s, l) && s.lanes[l].phase.Polling? && s.lanes[l].polled <= |c.logs[l]|
    ensures var t := Do(c, s, Poll(l, |c.logs[l]| - s.lanes[l].polled));
            && t.os == s.os && t.gens == s.gens && |t.lanes| == |s.lanes| && t.lanes == s.lanes[l := t.lanes[l]]
            && t.lanes[l].phase.Polling? && t.lanes[l].polled == |c.logs[l]| && t.lanes[l].start == s.lanes[l].start
  {
  }

  lemma {:induction false} PolledBatch(log: seq<Record>, lane: Lane, os: Store)
    requires LaneInv(log, lane, os) && lane.polled == |log|
    ensures lane.start <= |log| && lane.batch == GoodDocs(log[lane.start..])
  {
    assert log[lane.start..|log|] == log[lane.start..];
  }

  /** An idle lane can always read the rest of its log and apply it. */
  lemma {:induction false} DrainLane(c: Config, s: State, l: nat) returns (acts: seq<Action>, t: State)
    requires Inv(c, s) && l < |s.lanes| && s.lanes[l].phase.Polling?
    ensures Reaches(c, s, acts, t) && Inv(c, t)
    ensures |t.lanes| == |s.lanes| && t.lanes == s.lanes[l := t.lanes[l]] && Drained(c, t, l)
    ensures s.lanes[l].start <= |c.logs[l]| && t.os == PutAll(s.os, GoodDocs(c.logs[l][s.lanes[l].start..]))
  {
    var a, s1 := PollAll(c, s, l);
    var b, u := DrainBatch(c, s1, l);
    acts, t := [a] + b, u;
    SetTwice(s.lanes, l, s1.lanes[l], t.lanes[l]);
    One(c, s, a, b, t);
    RunInv(c, s1, b, t);
  }

  lemma {:induction false} DrainBatch(c: Config, s: State, l: nat) returns (acts: seq<Action>, t: State)
    requires OnLane(c, s, l) && s.lanes[l].phase.Polling? && GuardInv(s) && WellKeyed(s.os)
    requires s.lanes[l].polled == |c.logs[l]|
    ensures Reaches(c, s, acts, t) && |t.lanes| == |s.lanes| && t.lanes == s.lanes[l := t.lanes[l]]
    ensures Drained(c, t, l) && t.os == PutAll(s.os, s.lanes[l].batch)
  {
    if s.lanes[l].batch == [] {
      acts, t := [], s;
    } else {
      acts, t := FlushAll(c, s, l);
    }
  }

  predicate Drained(c: Config, s: State, l: nat)
    requires l < |s.lanes|
  {
    l < |c.logs| && s.lanes[l].phase.Polling? && s.lanes[l].batch == [] && s.lanes[l].polled == |c.logs[l]|
  }

  /** Every delivered record has been read and flushed. */
  predicate Quiescent(c: Config, s: State) {
    |s.lanes| == |c.logs| && forall l :: 0 <= l < |s.lanes| ==> Drained(c, s, l)
  }
}
