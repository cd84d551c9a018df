/** Whatever an indexer without a guard does, the guarded one can do too: it puts a flush off until
  * the other has asked for the bulk request, and skips it for good when the guard drops it all. */
module GuardBackward {
  import opened Contract
  import opened Stores
  import opened Protocol
  import opened Safety
  import opened Drain
  import opened GuardForward

  ghost predicate AllStale(m: Store, os: Store) {
    forall id :: id in m ==> Covers(os, m[id])
  }

  /** The guard would drop the whole batch. */
  ghost predicate DropsAll(c: Config, guard: map<string, int>, batch: seq<CanonicalDoc>) {
    batch != [] && Kept(c, guard, Newest(batch)) == map[]
  }

  ghost predicate Splits(m: Store, todo: Store, kept: Store) {
    SubMap(todo, m) && SubMap(kept, m) && forall id :: id in m ==> id in todo || id in kept
  }

  /** The guarded lane holds its batch while the unguarded one is in phase `q` of flushing it. */
  ghost predicate Holds(c: Config, guard: map<string, int>, batch: seq<CanonicalDoc>, q: Phase, os: Store) {
    match q
    case Polling => true
    case Filtering(todo, kept) => batch != [] && Splits(Newest(batch), todo, kept)
    case Writing(todo, applied) => DropsAll(c, guard, batch) && applied == map[] && AllStale(todo, os)
    case Embedding(todo, applied) => DropsAll(c, guard, batch) && todo == map[] && applied == map[]
    case Settling(todo, tenants) => DropsAll(c, guard, batch) && todo == map[] && tenants == {}
    case Bumping(tenants) => DropsAll(c, guard, batch) && tenants == {}
  }

  /** The lanes `a` (guarded) and `b` agree in everything but the phase. */
  ghost predicate LaneBack(c: Config, guard: map<string, int>, a: Lane, b: Lane, os: Store) {
    && b == a.(phase := b.phase)
    && match a.phase
       case Polling => Holds(c, guard, a.batch, b.phase, os)
       case Filtering(_, _) => false
       case Writing(todo, applied) =>
         b.phase.Writing? && b.phase.applied == applied && PlusStale(todo, b.phase.todo, os)
       case _ => b.phase == a.phase
  }

  ghost predicate Back(c: Config, s: State, u: State) {
    && |s.lanes| == |u.lanes| == |c.logs| && u == s.(lanes := u.lanes, guard := u.guard)
    && forall l :: 0 <= l < |s.lanes| ==> LaneBack(c, s.guard, s.lanes[l], u.lanes[l], s.os)
  }

  ghost predicate GuardGrows(g: map<string, int>, g': map<string, int>) {
    forall id :: id in g ==> id in g' && g'[id] >= g[id]
  }

  lemma {:induction false} StillDrops(c: Config, g: map<string, int>, g': map<string, int>, batch: seq<CanonicalDoc>)
    requires DropsAll(c, g, batch) && GuardGrows(g, g')
    ensures DropsAll(c, g', batch)
  {
    var m := Newest(batch);
    NewestWellKeyed(batch);
    forall id | id in m ensures id !in Kept(c, g', m) {
      assert id !in Kept(c, g, m);
    }
  }

  lemma {:induction false} BackStable(c: Config, g: map<string, int>, g': map<string, int>, a: Lane, b: Lane,
                                      os: Store, os': Store)
    requires LaneBack(c, g, a, b, os) && GuardGrows(g, g') && Grows(os, os')
    ensures LaneBack(c, g', a, b, os')
  {
    if DropsAll(c, g, a.batch) {
      StillDrops(c, g, g', a.batch);
    }
  }

  /** Lane `l` moves on both sides; the other lanes only see the store and the guard grow. */
  lemma {:induction false} BackLane(c: Config, s: State, u: State, l: nat, s': State, u': State)
    requires Back(c, s, u) && l < |s.lanes| && Grows(s.os, s'.os) && GuardGrows(s.guard, s'.guard)
    requires |s'.lanes| == |s.lanes| && |u'.lanes| == |u.lanes|
    requires s'.lanes == s.lanes[l := s'.lanes[l]] && u'.lanes == u.lanes[l := u'.lanes[l]]
    requires u' == s'.(lanes := u'.lanes, guard := u'.guard)
    requires LaneBack(c, s'.guard, s'.lanes[l], u'.lanes[l], s'.os)
    ensures Back(c, s', u')
  {
    forall m | 0 <= m < |s'.lanes| ensures LaneBack(c, s'.guard, s'.lanes[m], u'.lanes[m], s'.os) {
      if m != l {
        BackStable(c, s.guard, s'.guard, s.lanes[m], u.lanes[m], s.os, s'.os);
      }
    }
  }

  // ---- the guarded lane stays where it is ----

  /** Only the unguarded lane moves. */
  lemma {:induction false} Stays(c: Config, s: State, u: State, l: nat, q: Phase)
    requires Back(c, s, u) && l < |s.lanes|
    requires LaneBack(c, s.guard, s.lanes[l], u.lanes[l].(phase := q), s.os)
    ensures Back(c, s, SetPhase(u, l, q))
  {
    SetSame(s.lanes, l);
    BackLane(c, s, u, l, s, SetPhase(u, l, q));
  }

  lemma {:induction false} AllKept(m: Store, kept: Store)
    requires Splits(m, map[], kept)
    ensures kept == m
  {
  }

  lemma {:induction false} DroppedIsStale(c: Config, guard: map<string, int>, os: Store, batch: seq<CanonicalDoc>)
    requires forall id :: id in guard ==> id in os && guard[id] <= os[id].version
    ensures PlusStale(Kept(c, guard, Newest(batch)), Newest(batch), os)
    ensures DropsAll(c, guard, batch) ==> AllStale(Newest(batch), os)
  {
    var m := Newest(batch);
    NewestWellKeyed(batch);
    forall id | id in m && id !in Kept(c, guard, m) ensures Covers(os, m[id]) {
      assert !ShouldApply(guard, m[id]);
    }
  }

  /** A flush of which the guard would drop everything, carried out in one go. */
  lemma {:induction false} EmptyFlush(c: Config, s: State, l: nat, ok: bool) returns (acts: seq<Action>, t: State)
    requires OnLane(c, s, l) && s.lanes[l].phase.Polling? && DropsAll(c, s.guard, s.lanes[l].batch)
    ensures Reaches(c, s, acts, t)
    ensures var lane := s.lanes[l];
            var committed := if ok then lane.polled else lane.committed;
            t == s.(lanes := s.lanes[l := Lane(lane.polled, lane.polled, committed, [], Polling)])
  {
    var a, s1 := AskGuard(c, s, l);
    var s2 := Do(c, s1, Submit(l));
    t := Do(c, s2, Ack(l, ok));
    WithTwice(s.lanes, l, s1.lanes[l].phase, s2.lanes[l].phase);
    SetTwice(s.lanes, l, s2.lanes[l], t.lanes[l]);
    One(c, s2, Ack(l, ok), [], t);
    One(c, s1, Submit(l), [Ack(l, ok)] + [], t);
    acts := a + ([Submit(l)] + ([Ack(l, ok)] + []));
    ReachesConcat(c, s, a, s1, [Submit(l)] + ([Ack(l, ok)] + []), t);
  }

  /** The guarded lane goes from its held batch to the bulk request. */
  lemma {:induction false} LateSubmit(c: Config, s: State, l: nat) returns (acts: seq<Action>, t: State)
    requires OnLane(c, s, l) && s.lanes[l].phase.Polling? && s.lanes[l].batch != []
    requires !DropsAll(c, s.guard, s.lanes[l].batch)
    ensures Reaches(c, s, acts, t)
    ensures t == SetPhase(s, l, Writing(Kept(c, s.guard, Newest(s.lanes[l].batch)), map[]))
  {
    var a, s1 := AskGuard(c, s, l);
    t := Do(c, s1, Submit(l));
    WithTwice(s.lanes, l, s1.lanes[l].phase, t.lanes[l].phase);
    One(c, s1, Submit(l), [], t);
    acts := a + ([Submit(l)] + []);
    ReachesConcat(c, s, a, s1, [Submit(l)] + [], t);
  }

  lemma {:induction false} SubmitBack(c: Config, s: State, u: State, l: nat) returns (acts: seq<Action>, s': State)
    requires Back(c, s, u) && GuardInv(s) && Enabled(Unguarded(c), u, Submit(l))
    ensures Reaches(c, s, acts, s') && Back(c, s', Do(Unguarded(c), u, Submit(l)))
  {
    var batch := s.lanes[l].batch;
    assert LaneBack(c, s.guard, s.lanes[l], u.lanes[l], s.os);
    AllKept(Newest(batch), u.lanes[l].phase.kept);
    NewestNonEmpty(batch);
    DroppedIsStale(c, s.guard, s.os, batch);
    if DropsAll(c, s.guard, batch) {
      Stays(c, s, u, l, Writing(Newest(batch), map[]));
      acts, s' := [], s;
    } else {
      acts, s' := LateSubmit(c, s, l);
      BackLane(c, s, u, l, s', Do(Unguarded(c), u, Submit(l)));
    }
  }

  // ---- the other steps ----

  /** The guarded lane has nothing to do: the unguarded one goes over what the guard would drop. */
  lemma {:induction false} HeldStep(c: Config, s: State, u: State, a: Action)
    requires Back(c, s, u) && Enabled(Unguarded(c), u, a)
    requires a.Flush? || a.Filter? || a.Write? || a.Embed? || a.Settle? || a.Invalidate? || a.Fail?
    requires s.lanes[a.l].phase.Polling?
    ensures Back(c, s, Do(Unguarded(c), u, a))
  {
    var u' := Do(Unguarded(c), u, a);
    assert LaneBack(c, s.guard, s.lanes[a.l], u.lanes[a.l], s.os);
    HeldPhase(c, s, u, a);
    Stays(c, s, u, a.l, u'.lanes[a.l].phase);
  }

  lemma {:induction false} HeldPhase(c: Config, s: State, u: State, a: Action)
    requires Enabled(Unguarded(c), u, a) && u.os == s.os
    requires a.Flush? || a.Filter? || a.Write? || a.Embed? || a.Settle? || a.Invalidate? || a.Fail?
    requires Holds(c, s.guard, u.lanes[a.l].batch, u.lanes[a.l].phase, s.os)
    ensures var u' := Do(Unguarded(c), u, a);
            && u' == SetPhase(u, a.l, u'.lanes[a.l].phase)
            && Holds(c, s.guard, u.lanes[a.l].batch, u'.lanes[a.l].phase, s.os)
  {
    NewestWellKeyed(u.lanes[a.l].batch);
  }

  /** Both lanes poll, or commit their offset. */
  lemma {:induction false} SameLoop(c: Config, s: State, u: State, a: Action)
    requires Back(c, s, u) && Enabled(Unguarded(c), u, a)
    requires a.Poll? || (a.Ack? && !s.lanes[a.l].phase.Polling?)
    ensures Enabled(c, s, a) && Back(c, Do(c, s, a), Do(Unguarded(c), u, a))
  {
    assert LaneBack(c, s.guard, s.lanes[a.l], u.lanes[a.l], s.os);
    BackLane(c, s, u, a.l, Do(c, s, a), Do(Unguarded(c), u, a));
  }

  /** Both lanes are behind the bulk request. */
  lemma {:induction false} SameSink(c: Config, s: State, u: State, a: Action)
    requires Back(c, s, u) && Enabled(Unguarded(c), u, a)
    requires a.Vector? || a.Settle? || a.Remember? || a.Invalidate? || a.Bump?
    requires !s.lanes[a.l].phase.Polling?
    ensures Enabled(c, s, a) && Back(c, Do(c, s, a), Do(Unguarded(c), u, a))
  {
    assert LaneBack(c, s.guard, s.lanes[a.l], u.lanes[a.l], s.os);
    BackLane(c, s, u, a.l, Do(c, s, a), Do(Unguarded(c), u, a));
  }

  /** The bulk request: the guarded lane sends what it kept of it. */
  lemma {:induction false} WriteBack(c: Config, s: State, u: State, l: nat, id: string)
    returns (acts: seq<Action>, s': State)
    requires Back(c, s, u) && Enabled(Unguarded(c), u, Write(l, id)) && s.lanes[l].phase.Writing?
    requires u.lanes[l].phase.todo[id].docId == id
    ensures Reaches(c, s, acts, s') && Back(c, s', Do(Unguarded(c), u, Write(l, id)))
  {
    assert LaneBack(c, s.guard, s.lanes[l], u.lanes[l], s.os);
    if id in s.lanes[l].phase.todo {
      acts, s' := [Write(l, id)], Do(c, s, Write(l, id));
      Once(c, s, Write(l, id));
      BothWrite(c, s, u, l, id);
    } else {
      acts, s' := [], s;
      var q := u.lanes[l].phase;
      Stays(c, s, u, l, Writing(q.todo - {id}, q.applied));
    }
  }

  lemma {:induction false} BothWrite(c: Config, s: State, u: State, l: nat, id: string)
    requires Back(c, s, u) && OnLane(c, s, l) && s.lanes[l].phase.Writing? && u.lanes[l].phase.Writing?
    requires id in s.lanes[l].phase.todo && id in u.lanes[l].phase.todo && u.lanes[l].phase.todo[id].docId == id
    ensures Back(c, DoWrite(s, l, id), DoWrite(u, l, id))
  {
    assert LaneBack(c, s.guard, s.lanes[l], u.lanes[l], s.os);
    var p, q := s.lanes[l].phase, u.lanes[l].phase;
    WritePhase(s, l, id);
    WritePhase(u, l, id);
    WritePuts(s, l, id);
    PutGrows(s.os, p.todo[id]);
    StaleMinus(p.todo, q.todo, s.os, Put(s.os, p.todo[id]), id);
    SameBetween(c, s, u, id);
    WriteShapes(s, u, l, id);
    WriteMoves(s, l, id);
    WriteMoves(u, l, id);
    BackLane(c, s, u, l, DoWrite(s, l, id), DoWrite(u, l, id));
  }

  lemma {:induction false} SameBetween(c: Config, s: State, u: State, id: string)
    requires Back(c, s, u)
    ensures |s.lanes| == |u.lanes| && forall m :: 0 <= m < |s.lanes| ==> Between(s, m, id) == Between(u, m, id)
  {
    forall m | 0 <= m < |s.lanes| ensures Between(s, m, id) == Between(u, m, id) {
      assert LaneBack(c, s.guard, s.lanes[m], u.lanes[m], s.os);
    }
  }

  lemma {:induction false} WriteShapes(s: State, u: State, l: nat, id: string)
    requires |s.lanes| == |u.lanes| && u == s.(lanes := u.lanes, guard := u.guard) && l < |s.lanes|
    requires s.lanes[l].phase.Writing? && u.lanes[l].phase.Writing?
    requires id in s.lanes[l].phase.todo && id in u.lanes[l].phase.todo
    requires s.lanes[l].phase.todo[id] == u.lanes[l].phase.todo[id]
    requires forall m :: 0 <= m < |s.lanes| ==> Between(s, m, id) == Between(u, m, id)
    ensures var s', u' := DoWrite(s, l, id), DoWrite(u, l, id);
            u' == s'.(lanes := u'.lanes, guard := u'.guard) && s'.guard == s.guard
  {
    SameOthers(s, u, l, id);
  }

  lemma {:induction false} SameOthers(s: State, u: State, l: nat, id: string)
    requires |s.lanes| == |u.lanes|
    requires forall m :: 0 <= m < |s.lanes| ==> Between(s, m, id) == Between(u, m, id)
    ensures (exists m :: 0 <= m < |s.lanes| && m != l && Between(s, m, id)) <==>
            (exists m :: 0 <= m < |u.lanes| && m != l && Between(u, m, id))
  {
  }

  lemma {:induction false} WriteMoves(s: State, l: nat, id: string)
    requires l < |s.lanes| && s.lanes[l].phase.Writing? && id in s.lanes[l].phase.todo
    ensures var t := DoWrite(s, l, id); |t.lanes| == |s.lanes| && t.lanes == s.lanes[l := t.lanes[l]]
  {
  }

  lemma {:induction false} EndWriting(c: Config, s: State, u: State, a: Action)
    requires Back(c, s, u) && Enabled(Unguarded(c), u, a) && (a.Embed? || a.Fail?) && !s.lanes[a.l].phase.Polling?
    ensures Enabled(c, s, a) && Back(c, Do(c, s, a), Do(Unguarded(c), u, a))
  {
    assert LaneBack(c, s.guard, s.lanes[a.l], u.lanes[a.l], s.os);
    if a.Embed? {
      NothingLeft(s.lanes[a.l].phase.todo, u.lanes[a.l].phase.todo, s.os);
    }
    BackLane(c, s, u, a.l, Do(c, s, a), Do(Unguarded(c), u, a));
  }

  lemma {:induction false} NothingLeft(less: Store, more: Store, os: Store)
    requires PlusStale(less, more, os) && more == map[]
    ensures less == map[]
  {
  }

  lemma {:induction false} AckBack(c: Config, s: State, u: State, l: nat, ok: bool)
    returns (acts: seq<Action>, s': State)
    requires Back(c, s, u) && Enabled(Unguarded(c), u, Ack(l, ok))
    ensures Reaches(c, s, acts, s') && Back(c, s', Do(Unguarded(c), u, Ack(l, ok)))
  {
    assert LaneBack(c, s.guard, s.lanes[l], u.lanes[l], s.os);
    if s.lanes[l].phase.Polling? {
      acts, s' := EmptyFlush(c, s, l, ok);
      BackLane(c, s, u, l, s', Do(Unguarded(c), u, Ack(l, ok)));
    } else {
      SameLoop(c, s, u, Ack(l, ok));
      acts, s' := [Ack(l, ok)], Do(c, s, Ack(l, ok));
      Once(c, s, Ack(l, ok));
    }
  }

  lemma {:induction false} CrashBack(c: Config, s: State, u: State)
    requires Back(c, s, u)
    ensures Enabled(c, s, Crash) && Back(c, Do(c, s, Crash), Do(Unguarded(c), u, Crash))
  {
    var s', u' := Do(c, s, Crash), Do(Unguarded(c), u, Crash);
    forall l | 0 <= l < |s'.lanes| ensures LaneBack(c, s'.guard, s'.lanes[l], u'.lanes[l], s'.os) {
      assert LaneBack(c, s.guard, s.lanes[l], u.lanes[l], s.os);
    }
  }

  // ---- whole runs ----

  lemma {:induction false} OneBack(c: Config, s: State, u: State, a: Action)
    returns (acts: seq<Action>, s': State)
    requires Enabled(c, s, a) && Enabled(Unguarded(c), u, a)
    requires Back(c, Do(c, s, a), Do(Unguarded(c), u, a))
    ensures Reaches(c, s, acts, s') && Back(c, s', Do(Unguarded(c), u, a))
  {
    acts, s' := [a], Do(c, s, a);
    Once(c, s, a);
  }

  /** A step that the guarded lane either sits out or takes alike. */
  lemma {:induction false} PlainBack(c: Config, s: State, u: State, a: Action)
    returns (acts: seq<Action>, s': State)
    requires Back(c, s, u) && Enabled(Unguarded(c), u, a)
    requires !a.Submit? && !a.Write? && !a.Ack? && !a.Crash?
    ensures Reaches(c, s, acts, s') && Back(c, s', Do(Unguarded(c), u, a))
  {
    assert LaneBack(c, s.guard, s.lanes[a.l], u.lanes[a.l], s.os);
    if a.Poll? {
      SameLoop(c, s, u, a);
      acts, s' := OneBack(c, s, u, a);
    } else if s.lanes[a.l].phase.Polling? {
      HeldStep(c, s, u, a);
      acts, s' := [], s;
    } else if a.Embed? || a.Fail? {
      EndWriting(c, s, u, a);
      acts, s' := OneBack(c, s, u, a);
    } else {
      SameSink(c, s, u, a);
      acts, s' := OneBack(c, s, u, a);
    }
  }

  lemma {:induction false} StepBack(c: Config, s: State, u: State, a: Action) returns (acts: seq<Action>, s': State)
    requires Back(c, s, u) && GuardInv(s) && LanesInv(Unguarded(c), u) && Enabled(Unguarded(c), u, a)
    ensures Reaches(c, s, acts, s') && Back(c, s', Do(Unguarded(c), u, a))
  {
    match a {
      case Crash =>
        CrashBack(c, s, u);
        acts, s' := OneBack(c, s, u, a);
      case Submit(l) => acts, s' := SubmitBack(c, s, u, l);
      case Ack(l, ok) => acts, s' := AckBack(c, s, u, l, ok);
      case Write(l, id) =>
        TodoWellKeyed(Unguarded(c), u, l, id);
        if s.lanes[l].phase.Polling? {
          HeldStep(c, s, u, a);
          acts, s' := [], s;
        } else {
          assert LaneBack(c, s.guard, s.lanes[l], u.lanes[l], s.os);
          acts, s' := WriteBack(c, s, u, l, id);
        }
      case _ => acts, s' := PlainBack(c, s, u, a);
    }
  }

  lemma {:induction false} RunBack(c: Config, u: State, acts: seq<Action>, v: State, s: State)
    returns (bs: seq<Action>, t: State)
    requires Inv(c, s) && Inv(Unguarded(c), u) && Back(c, s, u) && Reaches(Unguarded(c), u, acts, v)
    ensures Reaches(c, s, bs, t) && Back(c, t, v)
    decreases |acts|
  {
    if acts == [] {
      bs, t := [], s;
    } else {
      var first, s1 := StepBack(c, s, u, acts[0]);
      RunInv(c, s, first, s1);
      StepInv(Unguarded(c), u, acts[0]);
      var rest, w := RunBack(c, Do(Unguarded(c), u, acts[0]), acts[1..], v, s1);
      ReachesConcat(c, s, first, s1, rest, w);
      bs, t := first + rest, w;
    }
  }

  /** The committed offset of every lane. */
  function Offsets(s: State): seq<nat> {
    seq(|s.lanes|, l requires 0 <= l < |s.lanes| => s.lanes[l].committed)
  }

  lemma {:induction false} UnguardedIsGuarded(c: Config, u: State) returns (s: State)
    requires Reachable(Unguarded(c), u)
    ensures Reachable(c, s) && s.os == u.os && s.vec == u.vec && s.gens == u.gens && Offsets(s) == Offsets(u)
    ensures Quiescent(Unguarded(c), u) ==> Quiescent(c, s)
  {
    var acts :| Reaches(Unguarded(c), Init(Unguarded(c)), acts, u);
    InitInv(c);
    InitInv(Unguarded(c));
    var bs, t := RunBack(c, Init(Unguarded(c)), acts, u, Init(c));
    s := t;
    BackOffsets(c, s, u);
    if Quiescent(Unguarded(c), u) {
      BackQuiescent(c, s, u);
    }
  }

  lemma {:induction false} BackOffsets(c: Config, s: State, u: State)
    requires Back(c, s, u)
    ensures Offsets(s) == Offsets(u)
  {
    forall l | 0 <= l < |s.lanes| ensures Offsets(s)[l] == Offsets(u)[l] {
      assert LaneBack(c, s.guard, s.lanes[l], u.lanes[l], s.os);
    }
  }

  lemma {:induction false} BackQuiescent(c: Config, s: State, u: State)
    requires Back(c, s, u) && Quiescent(Unguarded(c), u)
    ensures Quiescent(c, s)
  {
    forall l | 0 <= l < |s.lanes| ensures Drained(c, s, l) {
      assert LaneBack(c, s.guard, s.lanes[l], u.lanes[l], s.os) && Drained(Unguarded(c), u, l);
    }
  }

  /** These stores, generations and offsets can be reached and, when `complete` is asked for, be
    * final. */
  ghost predicate Outcome(c: Config, os: Store, vec: Store, gens: map<int, nat>, offsets: seq<nat>, complete: bool) {
    exists s :: && Reachable(c, s) && s.os == os && s.vec == vec && s.gens == gens && Offsets(s) == offsets
                && (complete ==> Quiescent(c, s))
  }

  /** The guard is invisible: over all interleavings, failures and restarts, the indexer with its
    * guard and the one without reach exactly the same stores, generations and committed offsets,
    * and with complete runs exactly the same final ones. */
  lemma {:induction false} GuardIsTransparent(c: Config, os: Store, vec: Store, gens: map<int, nat>, offsets: seq<nat>,
                                              complete: bool)
    ensures Outcome(c, os, vec, gens, offsets, complete) <==> Outcome(Unguarded(c), os, vec, gens, offsets, complete)
  {
    if Outcome(c, os, vec, gens, offsets, complete) {
      var s :| && Reachable(c, s) && s.os == os && s.vec == vec && s.gens == gens && Offsets(s) == offsets
               && (complete ==> Quiescent(c, s));
      var u := GuardedIsUnguarded(c, s);
      assert Offsets(u) == Offsets(s);
    }
    if Outcome(Unguarded(c), os, vec, gens, offsets, complete) {
      var u :| && Reachable(Unguarded(c), u) && u.os == os && u.vec == vec && u.gens == gens && Offsets(u) == offsets
               && (complete ==> Quiescent(Unguarded(c), u));
      var s := UnguardedIsGuarded(c, u);
    }
  }
}
