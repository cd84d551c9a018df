/** Whatever the indexer does with its guard, it could have done without one. */
module GuardForward {
  import opened Contract
  import opened Stores
  import opened Protocol
  import opened Safety
  import opened Drain

  /** `more` is `less` plus entries OpenSearch would refuse. */
  ghost predicate PlusStale(less: Store, more: Store, os: Store) {
    SubMap(less, more) && forall id :: id in more && id !in less ==> Covers(os, more[id])
  }

  ghost predicate PhaseSim(p: Phase, q: Phase, os: Store) {
    match p
    case Filtering(todo, kept) => q.Filtering? && q.todo == todo && PlusStale(kept, q.kept, os)
    case Writing(todo, applied) => q.Writing? && q.applied == applied && PlusStale(todo, q.todo, os)
    case _ => q == p
  }

  ghost predicate LaneSim(a: Lane, b: Lane, os: Store) {
    b == a.(phase := b.phase) && PhaseSim(a.phase, b.phase, os)
  }

  /** The guarded state `s` and the unguarded state `u` differ only in memory. */
  ghost predicate Sim(s: State, u: State) {
    && |s.lanes| == |u.lanes| && u == s.(lanes := u.lanes, guard := u.guard)
    && forall l :: 0 <= l < |s.lanes| ==> LaneSim(s.lanes[l], u.lanes[l], s.os)
  }

  function Unguarded(c: Config): Config {
    c.(useGuard := false)
  }

  lemma {:induction false} StaleStays(p: Phase, q: Phase, os: Store, os': Store)
    requires PhaseSim(p, q, os) && Grows(os, os')
    ensures PhaseSim(p, q, os')
  {
  }

  /** Both sides move lane `l`; the other lanes only see the store grow. */
  lemma {:induction false} SimLane(s: State, u: State, l: nat, s': State, u': State)
    requires Sim(s, u) && l < |s.lanes| && Grows(s.os, s'.os)
    requires |s'.lanes| == |s.lanes| && |u'.lanes| == |u.lanes|
    requires s'.lanes == s.lanes[l := s'.lanes[l]] && u'.lanes == u.lanes[l := u'.lanes[l]]
    requires u' == s'.(lanes := u'.lanes, guard := u'.guard)
    requires LaneSim(s'.lanes[l], u'.lanes[l], s'.os)
    ensures Sim(s', u')
  {
    forall m | 0 <= m < |s'.lanes| ensures LaneSim(s'.lanes[m], u'.lanes[m], s'.os) {
      if m != l {
        StaleStays(s.lanes[m].phase, u.lanes[m].phase, s.os, s'.os);
      }
    }
  }

  /** OpenSearch refuses a whole bulk request, item by item, and nothing changes. */
  lemma {:induction false} RefuseAll(c: Config, u: State, l: nat) returns (acts: seq<Action>, t: State)
    requires OnLane(c, u, l) && u.lanes[l].phase.Writing?
    requires forall id :: id in u.lanes[l].phase.todo ==> Covers(u.os, u.lanes[l].phase.todo[id])
    ensures Reaches(c, u, acts, t)
    ensures t == u.(lanes := With(u.lanes, l, Writing(map[], u.lanes[l].phase.applied)))
    decreases |u.lanes[l].phase.todo|
  {
    var p := u.lanes[l].phase;
    if p.todo == map[] {
      WithTwice(u.lanes, l, p, p);
      acts, t := [], u;
    } else {
      var id :| id in p.todo;
      Shrinks(p.todo, id);
      var u1 := SetPhase(u, l, Writing(p.todo - {id}, p.applied));
      acts, t := RefuseAll(c, u1, l);
      WithTwice(u.lanes, l, u1.lanes[l].phase, t.lanes[l].phase);
      One(c, u, Write(l, id), acts, t);
      acts := [Write(l, id)] + acts;
    }
  }

  /** The guard dropped everything; without it, the refused request is carried to its end. */
  lemma {:induction false} RefusedFlush(c: Config, u: State, l: nat) returns (acts: seq<Action>, t: State)
    requires OnLane(c, u, l) && u.lanes[l].phase.Filtering? && u.lanes[l].phase.todo == map[]
    requires forall id :: id in u.lanes[l].phase.kept ==> Covers(u.os, u.lanes[l].phase.kept[id])
    ensures Reaches(c, u, acts, t) && t == u.(lanes := With(u.lanes, l, Bumping({})))
  {
    var kept := u.lanes[l].phase.kept;
    var u1 := Do(c, u, Submit(l));
    if kept == map[] {
      t, acts := u1, [Submit(l)] + [];
      One(c, u, Submit(l), [], t);
    } else {
      var a, u2 := RefuseAll(c, u1, l);
      WithTwice(u.lanes, l, u1.lanes[l].phase, u2.lanes[l].phase);
      var b, u3 := SkipToBumping(c, u2, l);
      WithTwice(u.lanes, l, u2.lanes[l].phase, u3.lanes[l].phase);
      ReachesConcat(c, u1, a, u2, b, u3);
      One(c, u, Submit(l), a + b, u3);
      t, acts := u3, [Submit(l)] + (a + b);
    }
  }

  lemma {:induction false} SkipToBumping(c: Config, u: State, l: nat) returns (acts: seq<Action>, t: State)
    requires OnLane(c, u, l) && u.lanes[l].phase == Writing(map[], map[])
    ensures Reaches(c, u, acts, t) && t == u.(lanes := With(u.lanes, l, Bumping({})))
  {
    var u1 := u.(lanes := With(u.lanes, l, Embedding(map[], map[])));
    var u2 := u.(lanes := With(u.lanes, l, Settling(map[], {})));
    t := u.(lanes := With(u.lanes, l, Bumping({})));
    WithTwice(u.lanes, l, u1.lanes[l].phase, u2.lanes[l].phase);
    WithTwice(u.lanes, l, u2.lanes[l].phase, t.lanes[l].phase);
    One(c, u2, Invalidate(l), [], t);
    One(c, u1, Settle(l), [Invalidate(l)] + [], t);
    One(c, u, Embed(l), [Settle(l)] + ([Invalidate(l)] + []), t);
    acts := [Embed(l)] + ([Settle(l)] + ([Invalidate(l)] + []));
  }

  lemma {:induction false} Once(c: Config, s: State, a: Action)
    requires Enabled(c, s, a)
    ensures Reaches(c, s, [a], Do(c, s, a))
  {
    assert [a][1..] == [];
  }

  lemma {:induction false} MatchSubmit(c: Config, s: State, u: State, l: nat) returns (acts: seq<Action>, u': State)
    requires Sim(s, u) && Enabled(c, s, Submit(l))
    ensures Reaches(Unguarded(c), u, acts, u') && Sim(Do(c, s, Submit(l)), u')
  {
    assert LaneSim(s.lanes[l], u.lanes[l], s.os);
    var s' := Do(c, s, Submit(l));
    if s.lanes[l].phase.kept == map[] {
      acts, u' := RefusedFlush(Unguarded(c), u, l);
    } else {
      acts, u' := [Submit(l)], Do(Unguarded(c), u, Submit(l));
      Once(Unguarded(c), u, Submit(l));
    }
    SimLane(s, u, l, s', u');
  }

  lemma {:induction false} MatchEmbed(c: Config, s: State, u: State, l: nat) returns (acts: seq<Action>, u': State)
    requires Sim(s, u) && Enabled(c, s, Embed(l))
    ensures Reaches(Unguarded(c), u, acts, u') && Sim(Do(c, s, Embed(l)), u')
  {
    assert LaneSim(s.lanes[l], u.lanes[l], s.os);
    var s' := Do(c, s, Embed(l));
    var a, u1 := RefuseAll(Unguarded(c), u, l);
    u' := Do(Unguarded(c), u1, Embed(l));
    WithTwice(u.lanes, l, u1.lanes[l].phase, u'.lanes[l].phase);
    Once(Unguarded(c), u1, Embed(l));
    ReachesConcat(Unguarded(c), u, a, u1, [Embed(l)], u');
    acts := a + [Embed(l)];
    SimLane(s, u, l, s', u');
  }

  lemma {:induction false} MatchFilter(c: Config, s: State, u: State, l: nat, id: string)
    requires Sim(s, u) && GuardInv(s) && Enabled(c, s, Filter(l, id))
    requires var p := s.lanes[l].phase; p.todo[id].docId == id && (id in p.kept ==> p.kept[id] == p.todo[id])
    ensures Enabled(Unguarded(c), u, Filter(l, id))
    ensures Sim(Do(c, s, Filter(l, id)), Do(Unguarded(c), u, Filter(l, id)))
  {
    assert LaneSim(s.lanes[l], u.lanes[l], s.os);
    SimLane(s, u, l, Do(c, s, Filter(l, id)), Do(Unguarded(c), u, Filter(l, id)));
  }

  lemma {:induction false} SameBetween(s: State, u: State, id: string)
    requires Sim(s, u)
    ensures forall m :: 0 <= m < |s.lanes| ==> Between(s, m, id) == Between(u, m, id)
  {
    forall m | 0 <= m < |s.lanes| ensures Between(s, m, id) == Between(u, m, id) {
      assert LaneSim(s.lanes[m], u.lanes[m], s.os);
    }
  }

  lemma {:induction false} WrittenPhases(s: State, u: State, l: nat, id: string)
    requires l < |s.lanes| && l < |u.lanes| && LaneSim(s.lanes[l], u.lanes[l], s.os) && u.os == s.os
    requires s.lanes[l].phase.Writing? && id in s.lanes[l].phase.todo && s.lanes[l].phase.todo[id].docId == id
    ensures u.lanes[l].phase.Writing? && id in u.lanes[l].phase.todo
    ensures LaneSim(DoWrite(s, l, id).lanes[l], DoWrite(u, l, id).lanes[l], DoWrite(s, l, id).os)
    ensures Grows(s.os, DoWrite(s, l, id).os)
  {
    var p, q := s.lanes[l].phase, u.lanes[l].phase;
    WritePuts(s, l, id);
    WritePhase(s, l, id);
    WritePhase(u, l, id);
    PutGrows(s.os, p.todo[id]);
    StaleMinus(p.todo, q.todo, s.os, Put(s.os, p.todo[id]), id);
  }

  lemma {:induction false} WritePhase(s: State, l: nat, id: string)
    requires l < |s.lanes| && s.lanes[l].phase.Writing? && id in s.lanes[l].phase.todo
    ensures var p := s.lanes[l].phase;
            var applied := if Fresh(s.os, p.todo[id]) then p.applied[id := p.todo[id]] else p.applied;
            DoWrite(s, l, id).lanes[l] == s.lanes[l].(phase := Writing(p.todo - {id}, applied))
  {
  }

  lemma {:induction false} WritePuts(s: State, l: nat, id: string)
    requires l < |s.lanes| && s.lanes[l].phase.Writing? && id in s.lanes[l].phase.todo
    requires s.lanes[l].phase.todo[id].docId == id
    ensures DoWrite(s, l, id).os == Put(s.os, s.lanes[l].phase.todo[id])
  {
  }

  lemma {:induction false} PutGrows(os: Store, d: CanonicalDoc)
    ensures Grows(os, Put(os, d))
  {
  }

  lemma {:induction false} StaleMinus(less: Store, more: Store, os: Store, os': Store, id: string)
    requires PlusStale(less, more, os) && Grows(os, os') && id in less
    ensures PlusStale(less - {id}, more - {id}, os')
  {
  }

  lemma {:induction false} WrittenAlike(s: State, u: State, l: nat, id: string)
    requires Sim(s, u) && l < |s.lanes|
    requires s.lanes[l].phase.Writing? && id in s.lanes[l].phase.todo
    requires u.lanes[l].phase.Writing? && id in u.lanes[l].phase.todo
    requires u.lanes[l].phase.todo[id] == s.lanes[l].phase.todo[id]
    ensures var s', u' := DoWrite(s, l, id), DoWrite(u, l, id); u' == s'.(lanes := u'.lanes, guard := u'.guard)
  {
    SameBetween(s, u, id);
  }

  lemma {:induction false} MatchWrite(c: Config, s: State, u: State, l: nat, id: string)
    requires Sim(s, u) && Enabled(c, s, Write(l, id)) && s.lanes[l].phase.todo[id].docId == id
    ensures Enabled(Unguarded(c), u, Write(l, id))
    ensures Sim(DoWrite(s, l, id), DoWrite(u, l, id))
  {
    assert LaneSim(s.lanes[l], u.lanes[l], s.os);
    WrittenPhases(s, u, l, id);
    WrittenAlike(s, u, l, id);
    SimLane(s, u, l, DoWrite(s, l, id), DoWrite(u, l, id));
  }

  /** The actions both sides take alike. */
  lemma {:induction false} MatchAlike(c: Config, s: State, u: State, a: Action)
    requires Sim(s, u) && Enabled(c, s, a)
    requires a.Poll? || a.Flush? || a.Ack? || a.Fail?
    ensures Enabled(Unguarded(c), u, a) && Sim(Do(c, s, a), Do(Unguarded(c), u, a))
  {
    assert LaneSim(s.lanes[a.l], u.lanes[a.l], s.os);
    SimLane(s, u, a.l, Do(c, s, a), Do(Unguarded(c), u, a));
  }

  lemma {:induction false} MatchSink(c: Config, s: State, u: State, a: Action)
    requires Sim(s, u) && Enabled(c, s, a)
    requires a.Vector? || a.Settle? || a.Remember? || a.Invalidate? || a.Bump?
    ensures Enabled(Unguarded(c), u, a) && Sim(Do(c, s, a), Do(Unguarded(c), u, a))
  {
    assert LaneSim(s.lanes[a.l], u.lanes[a.l], s.os);
    SimLane(s, u, a.l, Do(c, s, a), Do(Unguarded(c), u, a));
  }

  lemma {:induction false} MatchCrash(c: Config, s: State, u: State)
    requires Sim(s, u) && Enabled(c, s, Crash)
    ensures Enabled(Unguarded(c), u, Crash) && Sim(Do(c, s, Crash), Do(Unguarded(c), u, Crash))
  {
    var s', u' := Do(c, s, Crash), Do(Unguarded(c), u, Crash);
    forall l | 0 <= l < |s'.lanes| ensures LaneSim(s'.lanes[l], u'.lanes[l], s'.os) {
      assert LaneSim(s.lanes[l], u.lanes[l], s.os);
    }
  }

  lemma {:induction false} MatchStep(c: Config, s: State, u: State, a: Action) returns (acts: seq<Action>, u': State)
    requires Inv(c, s) && Sim(s, u) && Enabled(c, s, a)
    ensures Reaches(Unguarded(c), u, acts, u') && Sim(Do(c, s, a), u')
  {
    if a.Submit? {
      acts, u' := MatchSubmit(c, s, u, a.l);
    } else if a.Embed? {
      acts, u' := MatchEmbed(c, s, u, a.l);
    } else {
      if a.Filter? || a.Write? {
        TodoWellKeyed(c, s, a.l, a.id);
      }
      match a {
        case Filter(l, id) => MatchFilter(c, s, u, l, id);
        case Write(l, id) => MatchWrite(c, s, u, l, id);
        case Crash => MatchCrash(c, s, u);
        case Poll(_, _) => MatchAlike(c, s, u, a);
        case Flush(_) => MatchAlike(c, s, u, a);
        case Ack(_, _) => MatchAlike(c, s, u, a);
        case Fail(_) => MatchAlike(c, s, u, a);
        case _ => MatchSink(c, s, u, a);
      }
      acts, u' := [a], Do(Unguarded(c), u, a);
      Once(Unguarded(c), u, a);
    }
  }

  lemma {:induction false} TodoWellKeyed(c: Config, s: State, l: nat, id: string)
    requires LanesInv(c, s) && l < |s.lanes|
    ensures var p := s.lanes[l].phase; p.Filtering? && id in p.todo ==>
              p.todo[id].docId == id && (id in p.kept ==> p.kept[id] == p.todo[id])
    ensures s.lanes[l].phase.Writing? && id in s.lanes[l].phase.todo ==> s.lanes[l].phase.todo[id].docId == id
  {
    assert LaneInv(c.logs[l], s.lanes[l], s.os);
    NewestWellKeyed(s.lanes[l].batch);
  }

  lemma {:induction false} MatchRun(c: Config, s: State, acts: seq<Action>, t: State, u: State)
    returns (bs: seq<Action>, v: State)
    requires Inv(c, s) && Sim(s, u) && Reaches(c, s, acts, t)
    ensures Reaches(Unguarded(c), u, bs, v) && Sim(t, v)
    decreases |acts|
  {
    if acts == [] {
      bs, v := [], u;
    } else {
      var first, u1 := MatchStep(c, s, u, acts[0]);
      StepInv(c, s, acts[0]);
      var rest, w := MatchRun(c, Do(c, s, acts[0]), acts[1..], t, u1);
      ReachesConcat(Unguarded(c), u, first, u1, rest, w);
      bs, v := first + rest, w;
    }
  }

  lemma {:induction false} SimQuiescent(c: Config, s: State, u: State)
    requires Sim(s, u) && Quiescent(c, s)
    ensures Quiescent(Unguarded(c), u)
  {
    forall l | 0 <= l < |u.lanes| ensures Drained(Unguarded(c), u, l) {
      assert LaneSim(s.lanes[l], u.lanes[l], s.os) && Drained(c, s, l);
    }
  }

  lemma {:induction false} GuardedIsUnguarded(c: Config, s: State) returns (u: State)
    requires Reachable(c, s)
    ensures Reachable(Unguarded(c), u) && u.os == s.os && u.vec == s.vec && u.gens == s.gens
    ensures |u.lanes| == |s.lanes| && forall l :: 0 <= l < |s.lanes| ==> u.lanes[l].committed == s.lanes[l].committed
    ensures Quiescent(c, s) ==> Quiescent(Unguarded(c), u)
  {
    var acts :| Reaches(c, Init(c), acts, s);
    InitInv(c);
    var bs, v := MatchRun(c, Init(c), acts, s, Init(Unguarded(c)));
    u := v;
    forall l | 0 <= l < |s.lanes| ensures u.lanes[l].committed == s.lanes[l].committed {
      assert LaneSim(s.lanes[l], u.lanes[l], s.os);
    }
    if Quiescent(c, s) {
      SimQuiescent(c, s, u);
    }
  }
}
