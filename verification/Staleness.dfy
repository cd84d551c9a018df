/** Exactly which requests can be answered from before a write that was bumped for. */
module Staleness {
  import opened Options
  import opened Decimal
  import opened CacheKey
  import opened Freshness

  /** The writes a request would see: its tenant's own, or everybody's when it names no tenant. */
  predicate Concerns(w: Written, tenant: string) {
    tenant == "" || w.tenant == tenant
  }

  /** Request `r` asked this, read its generation after `w` was bumped for, and was answered by a
    * retrieval that had begun before `w` landed. */
  predicate StaleAt(s: State, r: nat, w: Written, tenant: string, query: string, filters: Filters, ok: bool) {
    && r < |s.requests| && s.requests[r].phase.Answered? && s.requests[r].phase.seen.ok == ok
    && s.requests[r].tenant == tenant && s.requests[r].query == query
    && s.requests[r].filters == ScopeFilters(filters, tenant)
    && w in s.writes && Concerns(w, tenant)
    && w.bump.Some? && w.bump.value.at < s.requests[r].phase.seen.at && s.requests[r].phase.began <= w.at
  }

  ghost predicate CanBeStale(world: World, tenant: string, query: string, filters: Filters, ok: bool) {
    exists acts, s, r, w :: Reaches(world, Init, acts, s) && StaleAt(s, r, w, tenant, query, filters, ok)
  }

  // ---- runs ----

  lemma {:induction false} Then(world: World, s: State, a: Action, acts: seq<Action>, u: State)
    requires Enabled(world, s, a) && Reaches(world, Do(world, s, a), acts, u)
    ensures Reaches(world, s, [a] + acts, u)
  {
    assert ([a] + acts)[1..] == acts;
  }

  lemma {:induction false} Concat(world: World, s: State, a: seq<Action>, t: State, b: seq<Action>, u: State)
    requires Reaches(world, s, a, t) && Reaches(world, t, b, u)
    ensures Reaches(world, s, a + b, u)
    decreases |a|
  {
    if a == [] {
      assert a + b == b;
    } else {
      Concat(world, Do(world, s, a[0]), a[1..], t, b, u);
      Then(world, s, a[0], a[1..] + b, u);
      assert a + b == [a[0]] + (a[1..] + b);
    }
  }

  /** Nothing but the last request has moved. */
  ghost predicate LastOnly(s: State, u: State, q: Request)
    requires s.requests != []
  {
    && u.gens == s.gens && u.writes == s.writes && u.exact == s.exact && u.semantic == s.semantic
    && u.requests == s.requests[..|s.requests| - 1] + [q]
  }

  /** A request arrives and reads its generation. */
  lemma {:induction false} Asks(world: World, s: State, t: string, query: string, filters: Filters, ok: bool)
    returns (acts: seq<Action>, u: State)
    requires query != ""
    ensures Reaches(world, s, acts, u)
    ensures u.gens == s.gens && u.writes == s.writes && u.clock == s.clock + 2
    ensures u.exact == s.exact && u.semantic == s.semantic
    ensures var seen := Seen(if ok then GenOf(s, t) else 0, ok, s.clock + 1);
            u.requests == s.requests + [Request(t, query, ScopeFilters(filters, t), Reading(seen))]
  {
    var a, r := Arrive(t, query, filters), |s.requests|;
    var s1 := Do(world, s, a);
    assert s1.requests[r] == Request(t, query, ScopeFilters(filters, t), Arrived);
    u := Do(world, s1, ReadGen(r, ok));
    Then(world, s1, ReadGen(r, ok), [], u);
    acts := [a] + ([ReadGen(r, ok)] + []);
    Then(world, s, a, [ReadGen(r, ok)] + [], u);
  }

  /** A request that misses retrieves, generates ... */
  lemma {:induction false} Retrieves(world: World, s: State, q: Request) returns (acts: seq<Action>, u: State)
    requires s.requests != [] && s.requests[|s.requests| - 1] == q && q.phase.Reading?
    requires world.found(q.query, q.filters)
    ensures Reaches(world, s, acts, u) && u.clock == s.clock + 3
    ensures LastOnly(s, u, q.(phase := Generated(q.phase.seen, s.clock + 1)))
  {
    var r := |s.requests| - 1;
    var s1 := Do(world, s, MissExact(r));
    var s2 := Do(world, s1, Begin(r));
    u := Do(world, s2, Finish(r));
    Then(world, s2, Finish(r), [], u);
    Then(world, s1, Begin(r), [Finish(r)] + [], u);
    acts := [MissExact(r)] + ([Begin(r)] + ([Finish(r)] + []));
    Then(world, s, MissExact(r), [Begin(r)] + ([Finish(r)] + []), u);
  }

  /** ... and stores its answer in both caches. */
  lemma {:induction false} StoresBoth(world: World, s: State, q: Request, key: string)
    returns (acts: seq<Action>, u: State)
    requires s.requests != [] && s.requests[|s.requests| - 1] == q && q.phase.Generated?
    requires IsKey(world.lower, q.query, q.filters, q.phase.seen.gen, key)
    ensures Reaches(world, s, acts, u) && u.gens == s.gens && u.writes == s.writes && u.clock == s.clock + 2
    ensures var e := EntryOf(q, q.phase.seen, q.phase.began);
            key in u.exact && u.exact[key] == e && e in u.semantic
  {
    var r := |s.requests| - 1;
    var a, b := StoreExact(r, key, true), StoreSemantic(r, true);
    var s1 := StoredExact(world, s, q, key);
    u := StoredSemantic(world, s1, q);
    Then(world, s1, b, [], u);
    acts := [a] + ([b] + []);
    Then(world, s, a, [b] + [], u);
  }

  lemma {:induction false} StoredExact(world: World, s: State, q: Request, key: string) returns (u: State)
    requires s.requests != [] && s.requests[|s.requests| - 1] == q && q.phase.Generated?
    requires IsKey(world.lower, q.query, q.filters, q.phase.seen.gen, key)
    ensures var a := StoreExact(|s.requests| - 1, key, true); Enabled(world, s, a) && u == Do(world, s, a)
    ensures u.gens == s.gens && u.writes == s.writes && u.clock == s.clock + 1 && |u.requests| == |s.requests|
    ensures u.requests[|s.requests| - 1] == q.(phase := Phase.Cached(q.phase.seen, q.phase.began))
    ensures key in u.exact && u.exact[key] == EntryOf(q, q.phase.seen, q.phase.began)
  {
    var r := |s.requests| - 1;
    u := StoredAs(s, r, key);
    StoreShape(world, s, r, key);
  }

  function StoredAs(s: State, r: nat, key: string): State
    requires r < |s.requests| && s.requests[r].phase.Generated?
  {
    var q := s.requests[r];
    Tick(Move(s, r, Phase.Cached(q.phase.seen, q.phase.began)))
      .(exact := s.exact[key := EntryOf(q, q.phase.seen, q.phase.began)])
  }

  lemma {:induction false} StoreShape(world: World, s: State, r: nat, key: string)
    requires r < |s.requests| && s.requests[r].phase.Generated?
    requires IsKey(world.lower, s.requests[r].query, s.requests[r].filters, s.requests[r].phase.seen.gen, key)
    ensures Enabled(world, s, StoreExact(r, key, true))
    ensures Do(world, s, StoreExact(r, key, true)) == StoredAs(s, r, key)
  {
  }

  lemma {:induction false} StoredSemantic(world: World, s: State, q: Request) returns (u: State)
    requires q.phase.Generated? && s.requests != []
    requires s.requests[|s.requests| - 1] == q.(phase := Phase.Cached(q.phase.seen, q.phase.began))
    ensures var a := StoreSemantic(|s.requests| - 1, true); Enabled(world, s, a) && u == Do(world, s, a)
    ensures u.gens == s.gens && u.writes == s.writes && u.clock == s.clock + 1 && u.exact == s.exact
    ensures EntryOf(q, q.phase.seen, q.phase.began) in u.semantic
  {
    u := Do(world, s, StoreSemantic(|s.requests| - 1, true));
  }

  lemma {:induction false} AsksAndStores(world: World, s: State, t: string, query: string, filters: Filters,
                                         tail: string)
    returns (acts: seq<Action>, u: State, e: Entry)
    requires query != "" && world.found(query, ScopeFilters(filters, t))
    requires IsTail(world.lower, query, ScopeFilters(filters, t), tail)
    ensures Reaches(world, s, acts, u) && u.gens == s.gens && u.writes == s.writes
    ensures e.tenant == t && e.query == query && e.gen == GenOf(s, t) && e.began < u.clock
    ensures Cached(u, e, tail)
  {
    var g := GenOf(s, t);
    KeyIsTail(world.lower, query, ScopeFilters(filters, t), g, tail);
    var a, s1 := Asks(world, s, t, query, filters, true);
    var b, s2 := Retrieves(world, s1, s1.requests[|s.requests|]);
    var q := s2.requests[|s.requests|];
    var c, s3 := StoresBoth(world, s2, q, Head(g) + tail);
    Concat(world, s1, b, s2, c, s3);
    Concat(world, s, a, s1, b + c, s3);
    acts, u, e := a + (b + c), s3, EntryOf(q, q.phase.seen, q.phase.began);
  }

  /** The entry is in both caches, in the exact one under the given text. */
  ghost predicate Cached(s: State, e: Entry, tail: string) {
    var key := Head(e.gen) + tail;
    e in s.semantic && key in s.exact && s.exact[key] == e
  }

  /** A write lands and is bumped for. */
  lemma {:induction false} Writes(world: World, s: State, t: string) returns (acts: seq<Action>, u: State)
    requires IsId(t)
    ensures Reaches(world, s, acts, u) && u.clock == s.clock + 2 && u.requests == s.requests
    ensures u.exact == s.exact && u.semantic == s.semantic
    ensures u.gens == s.gens[GenKey(t) := GenOf(s, t) + 1]
    ensures u.writes == s.writes + [Written(t, s.clock, Some(Bumped(GenOf(s, t) + 1, s.clock + 1)))]
  {
    var n := |s.writes|;
    var s1 := Do(world, s, Land(t));
    var b := Bump(t, {n}, true);
    assert s1.writes[n] == Written(t, s.clock, None);
    u := Do(world, s1, b);
    assert u.writes == s.writes + [Written(t, s.clock, Some(Bumped(GenOf(s, t) + 1, s.clock + 1)))];
    Then(world, s1, b, [], u);
    acts := [Land(t)] + ([b] + []);
    Then(world, s, Land(t), [b] + [], u);
  }

  /** The entry can answer the request, from one of the caches. */
  ghost predicate Serves(world: World, e: Entry, tail: string, t: string, query: string, filters: Filters) {
    || IsTail(world.lower, query, ScopeFilters(filters, t), tail)
    || ((t != "" ==> e.tenant == t) && world.similar(query, e.query))
  }

  /** A request is answered from a cache. */
  lemma {:induction false} AsksAndHits(world: World, s: State, t: string, query: string, filters: Filters, ok: bool,
                                       e: Entry, tail: string)
    returns (acts: seq<Action>, u: State)
    requires query != "" && Cached(s, e, tail) && Serves(world, e, tail, t, query, filters)
    requires e.gen == if ok then GenOf(s, t) else 0
    ensures Reaches(world, s, acts, u) && u.writes == s.writes && |u.requests| == |s.requests| + 1
    ensures AnsweredFrom(u.requests[|s.requests|], t, query, filters, Seen(e.gen, ok, s.clock + 1), e)
  {
    var a, s1 := Asks(world, s, t, query, filters, ok);
    var r := |s.requests|;
    var q, b := s1.requests[r], [];
    if IsTail(world.lower, query, ScopeFilters(filters, t), tail) {
      KeyIsTail(world.lower, query, ScopeFilters(filters, t), e.gen, tail);
      b, u := HitsExact(world, s1, q, e, Head(e.gen) + tail);
    } else {
      b, u := HitsSemantic(world, s1, q, e);
    }
    Concat(world, s, a, s1, b, u);
    acts := a + b;
  }

  predicate AnsweredFrom(q: Request, t: string, query: string, filters: Filters, seen: Seen, e: Entry) {
    && q.tenant == t && q.query == query && q.filters == ScopeFilters(filters, t)
    && q.phase.Answered? && q.phase.seen == seen && q.phase.began == e.began
  }

  lemma {:induction false} HitsExact(world: World, s: State, q: Request, e: Entry, key: string)
    returns (acts: seq<Action>, u: State)
    requires s.requests != [] && s.requests[|s.requests| - 1] == q && q.phase.Reading?
    requires key in s.exact && s.exact[key] == e && IsKey(world.lower, q.query, q.filters, q.phase.seen.gen, key)
    ensures Reaches(world, s, acts, u) && u.writes == s.writes && |u.requests| == |s.requests|
    ensures u.requests[|s.requests| - 1] == q.(phase := Answered(q.phase.seen, e.began, ExactHit(e)))
  {
    var r := |s.requests| - 1;
    u := Do(world, s, HitExact(r, key));
    Then(world, s, HitExact(r, key), [], u);
    acts := [HitExact(r, key)] + [];
  }

  lemma {:induction false} HitsSemantic(world: World, s: State, q: Request, e: Entry)
    returns (acts: seq<Action>, u: State)
    requires s.requests != [] && s.requests[|s.requests| - 1] == q && q.phase.Reading?
    requires e in s.semantic && e.gen == q.phase.seen.gen && InScope(world, q, e)
    ensures Reaches(world, s, acts, u) && u.writes == s.writes && |u.requests| == |s.requests|
    ensures u.requests[|s.requests| - 1] == q.(phase := Answered(q.phase.seen, e.began, SemanticHit(e)))
  {
    var r := |s.requests| - 1;
    var s1 := Do(world, s, MissExact(r));
    u := Do(world, s1, HitSemantic(r, e));
    Then(world, s1, HitSemantic(r, e), [], u);
    acts := [MissExact(r)] + ([HitSemantic(r, e)] + []);
    Then(world, s, MissExact(r), [HitSemantic(r, e)] + [], u);
  }

  /** What a request of `t` will read once a write of `t` has been bumped for. */
  function GenRead(s: State, t: string, ok: bool): nat {
    if !ok then 0 else if t == "" then GenOf(s, t) else GenOf(s, t) + 1
  }

  /** An entry is in the caches; a write lands and is bumped for; a request that reads the entry's
    * generation is answered from it. */
  lemma {:induction false} WriteThenHit(world: World, s: State, tw: string,
                                        t: string, query: string, filters: Filters, ok: bool, e: Entry, tail: string)
    returns (acts: seq<Action>, u: State, w: Written)
    requires IsId(tw) && (t == "" || t == tw) && query != "" && Cached(s, e, tail) && e.began < s.clock
    requires Serves(world, e, tail, t, query, filters) && e.gen == GenRead(s, t, ok)
    ensures Reaches(world, s, acts, u) && StaleAt(u, |s.requests|, w, t, query, filters, ok)
  {
    var a, s1 := Writes(world, s, tw);
    ReadsAfter(s, s1, tw, t);
    var b, s2 := AsksAndHits(world, s1, t, query, filters, ok, e, tail);
    Concat(world, s, a, s1, b, s2);
    acts, u, w := a + b, s2, s1.writes[|s.writes|];
    assert w in u.writes;
  }

  /** The common shape of the stale runs: `t1` stores under its generation, a write of `tw` lands
    * and is bumped for, and `t` reads the generation `t1` had. */
  lemma {:induction false} StaleFrom(world: World, s: State, t1: string, q1: string, f1: Filters, tw: string,
                                     t: string, query: string, filters: Filters, ok: bool, tail: string)
    returns (acts: seq<Action>, u: State, r: nat, w: Written)
    requires q1 != "" && query != "" && IsId(tw) && (t == "" || t == tw) && GenOf(s, t1) == GenRead(s, t, ok)
    requires world.found(q1, ScopeFilters(f1, t1)) && IsTail(world.lower, q1, ScopeFilters(f1, t1), tail)
    requires || IsTail(world.lower, query, ScopeFilters(filters, t), tail)
             || ((t == "" || t1 == t) && world.similar(query, q1))
    ensures Reaches(world, s, acts, u) && StaleAt(u, r, w, t, query, filters, ok)
  {
    var a, s1, e := AsksAndStores(world, s, t1, q1, f1, tail);
    SameRead(s, s1, t, ok);
    r := |s1.requests|;
    var b: seq<Action>;
    b, u, w := WriteThenHit(world, s1, tw, t, query, filters, ok, e, tail);
    Concat(world, s, a, s1, b, u);
    acts := a + b;
  }

  lemma {:induction false} SameRead(s: State, u: State, t: string, ok: bool)
    requires u.gens == s.gens
    ensures GenRead(u, t, ok) == GenRead(s, t, ok)
  {
  }

  lemma {:induction false} StaleAfter(world: World, before: seq<Action>, s: State, acts: seq<Action>, u: State,
                                      r: nat, w: Written, t: string, query: string, filters: Filters, ok: bool)
    requires Reaches(world, Init, before, s) && Reaches(world, s, acts, u)
    requires StaleAt(u, r, w, t, query, filters, ok)
    ensures CanBeStale(world, t, query, filters, ok)
  {
    Concat(world, Init, before, s, acts, u);
  }

  lemma {:induction false} ReadsAfter(s: State, u: State, tw: string, t: string)
    requires IsId(tw) && (t == "" || t == tw) && u.gens == s.gens[GenKey(tw) := GenOf(s, tw) + 1]
    ensures GenOf(u, t) == if t == "" then GenOf(s, t) else GenOf(s, t) + 1
  {
    IdIsPlain(tw);
    if t == "" && GenKey(t) == GenKey(tw) {
      GenKeyInjective(tw, t);
    }
  }

  // ---- exactly when ----

  /** The answer to the request (t1, q1, f1) can be served to the request (t, query, filters) from
    * before a write: with a tenant and a working generation read only when the indexer knows the
    * other tenant too and their key texts are the same; otherwise also through the semantic cache. */
  ghost predicate Feeds(world: World, t1: string, q1: string, f1: Filters,
                        t: string, query: string, filters: Filters, ok: bool) {
    && q1 != "" && world.found(q1, ScopeFilters(f1, t1))
    && var same := SameText(world.lower, query, ScopeFilters(filters, t), q1, ScopeFilters(f1, t1));
       if t != "" && ok then IsId(t1) && t1 != t && same
       else same || ((t == "" || t1 == t) && world.similar(query, q1))
  }

  lemma {:induction false} SharedText(lower: char -> char, q: string, f: Filters, q2: string, f2: Filters, gen: nat)
    requires Shares(lower, q, f, q2, f2, gen)
    ensures SameText(lower, q, f, q2, f2)
  {
    var key :| IsKey(lower, q, f, gen, key) && IsKey(lower, q2, f2, gen, key);
    SameKeySameText(lower, q, f, gen, q2, f2, gen, key);
  }

  lemma {:induction false} ScopedAlready(tenant: string, query: string, filters: Filters)
    requires Scoped(tenant, query, filters)
    ensures ScopeFilters(filters, tenant) == filters && query != ""
  {
  }

  lemma {:induction false} HitText(world: World, q: Request, seen: Seen, began: nat, via: Via)
    requires Matched(world, q, seen, began, via) && via.ExactHit?
    ensures SameText(world.lower, q.query, q.filters, via.entry.query, via.entry.filters)
  {
    SharedText(world.lower, q.query, q.filters, via.entry.query, via.entry.filters, seen.gen);
  }

  lemma {:induction false} HitIsFed(world: World, q: Request, seen: Seen, began: nat, via: Via)
    requires Matched(world, q, seen, began, via) && !via.OwnRetrieval?
    requires q.tenant != "" && seen.ok ==> Foreign(q.tenant, via)
    requires Scoped(q.tenant, q.query, q.filters)
    ensures var e := via.entry; Feeds(world, e.tenant, e.query, e.filters, q.tenant, q.query, q.filters, seen.ok)
  {
    var e := via.entry;
    ScopedAlready(q.tenant, q.query, q.filters);
    ScopedAlready(e.tenant, e.query, e.filters);
    if via.ExactHit? {
      HitText(world, q, seen, began, via);
    }
  }

  lemma {:induction false} StaleHasCause(world: World, acts: seq<Action>, s: State, r: nat, w: Written,
                                         t: string, query: string, filters: Filters, ok: bool)
    requires Reaches(world, Init, acts, s) && StaleAt(s, r, w, t, query, filters, ok)
    ensures (t == "" || IsId(t)) && exists t1, q1, f1 :: Feeds(world, t1, q1, f1, t, query, filters, ok)
  {
    assert Inv(world, Init);
    RunInv(world, Init, acts, s);
    var q := s.requests[r];
    assert RequestInv(world, s, q) && WriteInv(s, w);
    HitIsFed(world, q, q.phase.seen, q.phase.began, q.phase.via);
    FedAlike(world, q.phase.via.entry, t, query, filters, ok);
  }

  lemma {:induction false} FedAlike(world: World, e: Entry, t: string, query: string, filters: Filters, ok: bool)
    requires Feeds(world, e.tenant, e.query, e.filters, t, query, ScopeFilters(filters, t), ok)
    ensures Feeds(world, e.tenant, e.query, e.filters, t, query, filters, ok)
  {
    assert ScopeFilters(ScopeFilters(filters, t), t) == ScopeFilters(filters, t);
  }

  lemma {:induction false} FedMakesStale(world: World, t1: string, q1: string, f1: Filters,
                                         t: string, query: string, filters: Filters, ok: bool)
    requires query != "" && (t == "" || IsId(t)) && Feeds(world, t1, q1, f1, t, query, filters, ok)
    ensures CanBeStale(world, t, query, filters, ok)
  {
    var before: seq<Action>, s := [], Init;
    if t != "" && ok {
      before, s := FirstBump(world, t1, t);
    }
    var tail := FedTail(world, t1, q1, f1, t, query, filters, ok);
    assert IsId(Signed(0));
    var acts, u, r, w := StaleFrom(world, s, t1, q1, f1, if t == "" then Signed(0) else t, t, query, filters, ok, tail);
    StaleAfter(world, before, s, acts, u, r, w, t, query, filters, ok);
  }

  lemma {:induction false} FedTail(world: World, t1: string, q1: string, f1: Filters,
                                   t: string, query: string, filters: Filters, ok: bool)
    returns (tail: string)
    requires Feeds(world, t1, q1, f1, t, query, filters, ok)
    ensures IsTail(world.lower, q1, ScopeFilters(f1, t1), tail)
    ensures || IsTail(world.lower, query, ScopeFilters(filters, t), tail)
            || ((t == "" || t1 == t) && world.similar(query, q1))
  {
    if SameText(world.lower, query, ScopeFilters(filters, t), q1, ScopeFilters(f1, t1)) {
      tail :| && IsTail(world.lower, query, ScopeFilters(filters, t), tail)
              && IsTail(world.lower, q1, ScopeFilters(f1, t1), tail);
    } else {
      tail := TailExists(world.lower, q1, ScopeFilters(f1, t1));
    }
  }

  lemma {:induction false} FirstBump(world: World, t1: string, t: string) returns (acts: seq<Action>, s: State)
    requires IsId(t1) && t1 != t
    ensures Reaches(world, Init, acts, s) && GenOf(s, t1) == 1 && GenOf(s, t) == 0
  {
    acts, s := Writes(world, Init, t1);
    IdIsPlain(t1);
    if GenKey(t) == GenKey(t1) {
      GenKeyInjective(t1, t);
    }
  }

  /** Stale answers, exactly: there is a run that gives this request one if and only if it names no
    * tenant, or one the indexer writes for, and some request that finds sources feeds it. */
  lemma {:induction false} StaleExactly(world: World, t: string, query: string, filters: Filters, ok: bool)
    requires query != ""
    ensures CanBeStale(world, t, query, filters, ok) <==>
            (t == "" || IsId(t)) && exists t1, q1, f1 :: Feeds(world, t1, q1, f1, t, query, filters, ok)
  {
    if t1, q1, f1 :| (t == "" || IsId(t)) && Feeds(world, t1, q1, f1, t, query, filters, ok) {
      FedMakesStale(world, t1, q1, f1, t, query, filters, ok);
    }
    forall acts, s, r, w | Reaches(world, Init, acts, s) && StaleAt(s, r, w, t, query, filters, ok)
      ensures (t == "" || IsId(t)) && exists t1, q1, f1 :: Feeds(world, t1, q1, f1, t, query, filters, ok)
    {
      StaleHasCause(world, acts, s, r, w, t, query, filters, ok);
    }
  }

  /** Without a tenant, or when its generation read fails, every request that finds sources can be
    * answered from before a write, by its own earlier answer. */
  lemma {:induction false} BlindRequestsAreStale(world: World, t: string, query: string, filters: Filters, ok: bool)
    requires query != "" && world.found(query, ScopeFilters(filters, t))
    requires t == "" || (IsId(t) && !ok)
    ensures CanBeStale(world, t, query, filters, ok)
  {
    var tail := TailExists(world.lower, query, ScopeFilters(filters, t));
    assert SameText(world.lower, query, ScopeFilters(filters, t), query, ScopeFilters(filters, t));
    assert Feeds(world, t, query, filters, t, query, filters, ok);
    FedMakesStale(world, t, query, filters, t, query, filters, ok);
  }

  /** What a client can check: with a tenant and a working generation read, a request without
    * separators is always answered afresh, whatever other tenants ask. */
  lemma {:induction false} PlainRequestsAreSafe(world: World, t: string, query: string, filters: Filters)
    requires forall c :: world.lower(c) == '|' ==> c == '|'
    requires t != "" && query != "" && WellFormed(query, ScopeFilters(filters, t))
    ensures !CanBeStale(world, t, query, filters, true)
  {
    StaleExactly(world, t, query, filters, true);
    forall t1, q1, f1 ensures !Feeds(world, t1, q1, f1, t, query, filters, true) {
      if Feeds(world, t1, q1, f1, t, query, filters, true) {
        SameTenant(world, t1, q1, f1, t, query, filters);
      }
    }
  }

  lemma {:induction false} SameTenant(world: World, t1: string, q1: string, f1: Filters,
                                      t: string, query: string, filters: Filters)
    requires (forall c :: world.lower(c) == '|' ==> c == '|') && t != "" && IsId(t1)
    requires WellFormed(query, ScopeFilters(filters, t))
    requires SameText(world.lower, query, ScopeFilters(filters, t), q1, ScopeFilters(f1, t1))
    ensures t1 == t
  {
    var tail :| && IsTail(world.lower, query, ScopeFilters(filters, t), tail)
                && IsTail(world.lower, q1, ScopeFilters(f1, t1), tail);
    IdIsPlain(t1);
    SharedFilter(world.lower, query, ScopeFilters(filters, t), q1, ScopeFilters(f1, t1), tail, "tenant_id");
  }
}
