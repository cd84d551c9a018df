/** The generation-scoped answer caches: `handleAsk` of cmd/query/main.go against the writes and
  * generation bumps of the indexer, in every interleaving.
  *
  * Redis holds the generations and the exact cache, Qdrant the semantic cache. Lookups and
  * stores may fail or expire at any time. The clock counts actions.
  */
module Freshness {
  import opened Options
  import opened CacheKey
  import opened Decimal

  /** What a run depends on besides its actions: the rune mapping of strings.ToLower, which requests
    * can find sources at all, and which queries the semantic cache takes for one another. */
  datatype World = World(
    lower: char -> char,
    found: (string, Filters) -> bool,
    similar: (string, string) -> bool
  )

  /** A successful bump: the generation it produced and when. */
  datatype Bumped = Bumped(gen: nat, at: nat)

  /** A document write for a tenant that reached the stores at `at`. */
  datatype Written = Written(tenant: string, at: nat, bump: Option<Bumped>)

  /** A stored answer with its provenance: who asked what, under which generation, and when the
    * retrieval behind it began. */
  datatype Entry = Entry(tenant: string, query: string, filters: Filters, gen: nat, began: nat)

  datatype Via = OwnRetrieval | ExactHit(entry: Entry) | SemanticHit(entry: Entry)

  /** What a request knows after its generation read: the value, whether the read worked, when. */
  datatype Seen = Seen(gen: nat, ok: bool, at: nat)

  datatype Phase =
    | Arrived
    | Reading(seen: Seen)                 // generation known, exact cache not yet asked
    | Missed(seen: Seen)                  // exact cache missed
    | Retrieving(seen: Seen, began: nat)
    | Generated(seen: Seen, began: nat)   // answer in hand, not yet stored
    | Cached(seen: Seen, began: nat)      // offered to the exact cache
    | Answered(seen: Seen, began: nat, via: Via)
    | Ended                               // nothing found, or an error

  datatype Request = Request(tenant: string, query: string, filters: Filters, phase: Phase)

  datatype State = State(
    clock: nat,
    gens: map<string, nat>,
    writes: seq<Written>,
    requests: seq<Request>,
    exact: map<string, Entry>,
    semantic: set<Entry>
  )

  function GenKey(tenant: string): string {
    "gen:" + (if tenant == "" then "_global" else tenant)
  }

  /** The indexer knows a tenant by its numeric id, written in decimal. */
  ghost predicate IsId(tenant: string) {
    exists n :: Signed(n) == tenant
  }

  function GenOf(s: State, tenant: string): nat {
    if GenKey(tenant) in s.gens then s.gens[GenKey(tenant)] else 0
  }

  /** The tenant of the request overrides whatever the client put in its filters. */
  function ScopeFilters(filters: Filters, tenant: string): (r: Filters)
    ensures tenant != "" ==> "tenant_id" in r && r["tenant_id"] == tenant
    ensures forall k :: k != "tenant_id" ==> (k in r <==> k in filters) && (k in r ==> r[k] == filters[k])
  {
    if tenant == "" then filters else filters["tenant_id" := tenant]
  }

  /** Without an authenticated tenant the client's own tenant filter stays, too. */
  lemma {:induction false} ScopeOfNobody(filters: Filters)
    ensures ScopeFilters(filters, "") == filters
  {
  }

  datatype Action =
    | Land(tenant: string)                               // a write reaches both stores
    | Bump(tenant: string, covered: set<nat>, ok: bool)  // the indexer bumps for these writes
    | Arrive(tenant: string, query: string, filters: Filters)
    | ReadGen(r: nat, ok: bool)
    | HitExact(r: nat, key: string)
    | MissExact(r: nat)
    | HitSemantic(r: nat, entry: Entry)
    | Begin(r: nat)                                      // no semantic hit: retrieval begins
    | Finish(r: nat)                                     // retrieval and generation end
    | Stop(r: nat)
    | StoreExact(r: nat, key: string, ok: bool)
    | StoreSemantic(r: nat, ok: bool)
    | Expire(key: string)
    | Drop(entry: Entry)

  /** The semantic cache filters by tenant and generation, and takes a near enough query. */
  predicate InScope(world: World, q: Request, e: Entry) {
    (q.tenant != "" ==> e.tenant == q.tenant) && world.similar(q.query, e.query)
  }

  ghost predicate Enabled(world: World, s: State, a: Action) {
    match a
    case Land(tenant) => IsId(tenant)
    case Bump(tenant, covered, ok) =>
      IsId(tenant) &&
      forall i :: i in covered ==> i < |s.writes| && s.writes[i].tenant == tenant && s.writes[i].bump == None
    case Arrive(_, query, _) => query != ""
    case ReadGen(r, ok) => r < |s.requests| && s.requests[r].phase.Arrived?
    case HitExact(r, key) =>
      r < |s.requests| && s.requests[r].phase.Reading? && key in s.exact &&
      IsKey(world.lower, s.requests[r].query, s.requests[r].filters, s.requests[r].phase.seen.gen, key)
    case MissExact(r) => r < |s.requests| && s.requests[r].phase.Reading?
    case HitSemantic(r, e) =>
      r < |s.requests| && s.requests[r].phase.Missed? && e in s.semantic && e.gen == s.requests[r].phase.seen.gen &&
      InScope(world, s.requests[r], e)
    case Begin(r) => r < |s.requests| && s.requests[r].phase.Missed?
    case Finish(r) =>
      r < |s.requests| && s.requests[r].phase.Retrieving? && world.found(s.requests[r].query, s.requests[r].filters)
    case Stop(r) => r < |s.requests| && s.requests[r].phase.Retrieving?
    case StoreExact(r, key, ok) =>
      r < |s.requests| && s.requests[r].phase.Generated? &&
      IsKey(world.lower, s.requests[r].query, s.requests[r].filters, s.requests[r].phase.seen.gen, key)
    case StoreSemantic(r, ok) => r < |s.requests| && s.requests[r].phase.Cached?
    case Expire(key) => true
    case Drop(e) => true
  }

  function Move(s: State, r: nat, p: Phase): State
    requires r < |s.requests|
  {
    s.(requests := s.requests[r := s.requests[r].(phase := p)])
  }

  function EntryOf(q: Request, seen: Seen, began: nat): Entry {
    Entry(q.tenant, q.query, q.filters, seen.gen, began)
  }

  function BumpWrites(writes: seq<Written>, covered: set<nat>, b: Bumped): seq<Written> {
    seq(|writes|, i requires 0 <= i < |writes| => if i in covered then writes[i].(bump := Some(b)) else writes[i])
  }

  function Tick(s: State): State {
    s.(clock := s.clock + 1)
  }

  ghost function Do(world: World, s: State, a: Action): State
    requires Enabled(world, s, a)
  {
    Tick(match a
         case Land(tenant) => s.(writes := s.writes + [Written(tenant, s.clock, None)])
         case Bump(tenant, covered, ok) =>
           if !ok then s
           else
             var gen := GenOf(s, tenant) + 1;
             s.(gens := s.gens[GenKey(tenant) := gen], writes := BumpWrites(s.writes, covered, Bumped(gen, s.clock)))
         case Arrive(tenant, query, filters) =>
           s.(requests := s.requests + [Request(tenant, query, ScopeFilters(filters, tenant), Arrived)])
         case ReadGen(r, ok) =>
           Move(s, r, Reading(Seen(if ok then GenOf(s, s.requests[r].tenant) else 0, ok, s.clock)))
         case HitExact(r, key) =>
           Move(s, r, Answered(s.requests[r].phase.seen, s.exact[key].began, ExactHit(s.exact[key])))
         case MissExact(r) => Move(s, r, Missed(s.requests[r].phase.seen))
         case HitSemantic(r, e) => Move(s, r, Answered(s.requests[r].phase.seen, e.began, SemanticHit(e)))
         case Begin(r) => Move(s, r, Retrieving(s.requests[r].phase.seen, s.clock))
         case Finish(r) => Move(s, r, Generated(s.requests[r].phase.seen, s.requests[r].phase.began))
         case Stop(r) => Move(s, r, Ended)
         case StoreExact(r, key, ok) =>
           var p := s.requests[r].phase;
           Move(s, r, Cached(p.seen, p.began))
             .(exact := if ok then s.exact[key := EntryOf(s.requests[r], p.seen, p.began)] else s.exact)
         case StoreSemantic(r, ok) =>
           var p := s.requests[r].phase;
           Move(s, r, Answered(p.seen, p.began, OwnRetrieval))
             .(semantic := if ok then s.semantic + {EntryOf(s.requests[r], p.seen, p.began)} else s.semantic)
         case Expire(key) => s.(exact := s.exact - {key})
         case Drop(e) => s.(semantic := s.semantic - {e}))
  }

  const Init: State := State(0, map[], [], [], map[], {})

  ghost predicate Reaches(world: World, s: State, acts: seq<Action>, t: State)
    decreases |acts|
  {
    if acts == [] then s == t
    else Enabled(world, s, acts[0]) && Reaches(world, Do(world, s, acts[0]), acts[1..], t)
  }

  // ---- invariants ----

  ghost predicate WriteInv(s: State, w: Written) {
    && w.at < s.clock && IsId(w.tenant)
    && (w.bump.Some? ==> 1 <= w.bump.value.gen <= GenOf(s, w.tenant) && w.at < w.bump.value.at < s.clock)
  }

  /** A generation read at `seen.at`: it counts exactly the bumps that came before it. */
  ghost predicate SeenInv(s: State, tenant: string, seen: Seen) {
    && seen.at < s.clock && (seen.gen > 0 ==> IsId(tenant) && seen.ok && seen.gen <= GenOf(s, tenant))
    && forall w :: w in s.writes && w.tenant == tenant && w.bump.Some? ==>
         (seen.ok ==> (w.bump.value.gen <= seen.gen <==> w.bump.value.at < seen.at))
  }

  ghost predicate Scoped(tenant: string, query: string, filters: Filters) {
    query != "" && (tenant != "" ==> "tenant_id" in filters && filters["tenant_id"] == tenant)
  }

  /** What a cached answer says about the request behind it. */
  ghost predicate Stored(world: World, e: Entry) {
    && Scoped(e.tenant, e.query, e.filters) && world.found(e.query, e.filters)
    && (e.gen > 0 ==> IsId(e.tenant))
  }

  /** An answer under a generation postdates every write that generation accounts for. */
  ghost predicate EntryInv(world: World, s: State, e: Entry) {
    && Stored(world, e)
    && (e.gen > 0 ==> e.gen <= GenOf(s, e.tenant))
    && forall w :: w in s.writes && w.tenant == e.tenant && w.bump.Some? && w.bump.value.gen <= e.gen ==>
         w.at < e.began
  }

  /** Two requests have the same key text under generation `gen`. */
  ghost predicate Shares(lower: char -> char, q1: string, f1: Filters, q2: string, f2: Filters, gen: nat) {
    exists key :: IsKey(lower, q1, f1, gen, key) && IsKey(lower, q2, f2, gen, key)
  }

  /** The answer came out of an entry that another tenant stored under a bumped generation. */
  predicate Foreign(tenant: string, via: Via) {
    via.ExactHit? && via.entry.gen > 0 && via.entry.tenant != tenant
  }

  /** How the answer came about: an exact hit has the key of the request, a semantic hit its scope,
    * and a request's own retrieval begins after its generation read. */
  ghost predicate Matched(world: World, q: Request, seen: Seen, began: nat, via: Via) {
    match via
    case OwnRetrieval => seen.at < began
    case ExactHit(e) =>
      && Stored(world, e) && e.gen == seen.gen && e.began == began
      && Shares(world.lower, q.query, q.filters, e.query, e.filters, seen.gen)
    case SemanticHit(e) => Stored(world, e) && e.gen == seen.gen && e.began == began && InScope(world, q, e)
  }

  /** Every write of the tenant that was bumped for before `seen` landed before `began`. */
  ghost predicate FreshFor(s: State, tenant: string, seen: Seen, began: nat) {
    forall w :: w in s.writes && w.tenant == tenant && w.bump.Some? && w.bump.value.at < seen.at ==> w.at < began
  }

  ghost predicate PhaseInv(world: World, s: State, q: Request) {
    match q.phase
    case Arrived => true
    case Reading(seen) => SeenInv(s, q.tenant, seen)
    case Missed(seen) => SeenInv(s, q.tenant, seen)
    case Retrieving(seen, began) => SeenInv(s, q.tenant, seen) && seen.at < began
    case Generated(seen, began) => SeenInv(s, q.tenant, seen) && seen.at < began && world.found(q.query, q.filters)
    case Cached(seen, began) => SeenInv(s, q.tenant, seen) && seen.at < began && world.found(q.query, q.filters)
    case Answered(seen, began, via) =>
      && seen.at < s.clock && Matched(world, q, seen, began, via)
      && (q.tenant != "" && seen.ok && !Foreign(q.tenant, via) ==> FreshFor(s, q.tenant, seen, began))
    case Ended => true
  }

  ghost predicate RequestInv(world: World, s: State, q: Request) {
    Scoped(q.tenant, q.query, q.filters) && PhaseInv(world, s, q)
  }

  ghost predicate ExactInv(world: World, s: State, key: string, e: Entry) {
    EntryInv(world, s, e) && IsKey(world.lower, e.query, e.filters, e.gen, key)
  }

  ghost predicate Inv(world: World, s: State) {
    && (forall t :: GenKey(t) in s.gens ==> IsId(t))
    && (forall w :: w in s.writes ==> WriteInv(s, w))
    && (forall q :: q in s.requests ==> RequestInv(world, s, q))
    && (forall k :: k in s.exact ==> ExactInv(world, s, k, s.exact[k]))
    && (forall e :: e in s.semantic ==> EntryInv(world, s, e))
  }

  lemma {:induction false} IdIsPlain(t: string)
    requires IsId(t)
    ensures t != "" && t != "_global" && Free(t, '|')
  {
    var n :| Signed(n) == t;
    SignedFree(n);
    assert IsDigit(t[0]) || t[0] == '-';
  }

  /** Time has passed: generations only rise, and a bump that is new since `s` is beyond every
    * generation known then. */
  ghost predicate Later(s: State, s': State) {
    && s.clock <= s'.clock && (forall t :: GenOf(s, t) <= GenOf(s', t))
    && forall w :: w in s'.writes ==>
         w in s.writes || w.bump.None? || (w.bump.value.at >= s.clock && w.bump.value.gen > GenOf(s, w.tenant))
  }

  lemma {:induction false} SeenLater(s: State, s': State, tenant: string, seen: Seen)
    requires SeenInv(s, tenant, seen) && Later(s, s')
    ensures SeenInv(s', tenant, seen)
  {
  }

  lemma {:induction false} EntryLater(world: World, s: State, s': State, e: Entry)
    requires EntryInv(world, s, e) && Later(s, s')
    ensures EntryInv(world, s', e)
  {
  }

  lemma {:induction false} RequestLater(world: World, s: State, s': State, q: Request)
    requires RequestInv(world, s, q) && Later(s, s')
    ensures RequestInv(world, s', q)
  {
    if q.phase.Reading? || q.phase.Missed? || q.phase.Retrieving? || q.phase.Generated? || q.phase.Cached? {
      SeenLater(s, s', q.tenant, q.phase.seen);
    }
  }

  lemma {:induction false} GenKeyInjective(a: string, b: string)
    requires a != "" && a != "_global" && GenKey(a) == GenKey(b)
    ensures a == b
  {
    var x, y := a, if b == "" then "_global" else b;
    assert ("gen:" + x)[4..] == x && ("gen:" + y)[4..] == y;
  }

  lemma {:induction false} BumpLater(world: World, s: State, tenant: string, covered: set<nat>)
    requires Enabled(world, s, Bump(tenant, covered, true))
    ensures Later(s, Do(world, s, Bump(tenant, covered, true)))
    ensures var s' := Do(world, s, Bump(tenant, covered, true));
            && GenOf(s', tenant) == GenOf(s, tenant) + 1
            && forall t :: GenKey(t) in s'.gens ==> GenKey(t) in s.gens || t == tenant
  {
    var s' := Do(world, s, Bump(tenant, covered, true));
    IdIsPlain(tenant);
    forall t ensures GenOf(s', t) == if t == tenant then GenOf(s, t) + 1 else GenOf(s, t) {
      if GenKey(tenant) == GenKey(t) {
        GenKeyInjective(tenant, t);
      }
    }
    forall t | GenKey(t) in s'.gens ensures GenKey(t) in s.gens || t == tenant {
      if GenKey(t) == GenKey(tenant) {
        GenKeyInjective(tenant, t);
      }
    }
  }

  lemma {:induction false} BumpWriteInv(world: World, s: State, tenant: string, covered: set<nat>)
    requires Enabled(world, s, Bump(tenant, covered, true)) && forall w :: w in s.writes ==> WriteInv(s, w)
    ensures var s' := Do(world, s, Bump(tenant, covered, true)); forall w :: w in s'.writes ==> WriteInv(s', w)
  {
    var s' := Do(world, s, Bump(tenant, covered, true));
    BumpLater(world, s, tenant, covered);
    forall i | 0 <= i < |s'.writes| ensures WriteInv(s', s'.writes[i]) {
      assert s.writes[i] in s.writes;
      assert WriteInv(s, s.writes[i]);
    }
  }

  /** Only the request list grew or one request moved; nothing about writes or generations did. */
  ghost predicate Calm(s: State, s': State) {
    s'.gens == s.gens && s'.writes == s.writes && s'.clock == s.clock + 1
  }

  lemma {:induction false} CalmStep(world: World, s: State, s': State)
    requires Inv(world, s) && Calm(s, s')
    requires forall q :: q in s'.requests ==> q in s.requests || RequestInv(world, s', q)
    requires forall k :: k in s'.exact ==>
               ((k in s.exact && s'.exact[k] == s.exact[k]) || ExactInv(world, s', k, s'.exact[k]))
    requires forall e :: e in s'.semantic ==> e in s.semantic || EntryInv(world, s', e)
    ensures Inv(world, s')
  {
    assert Later(s, s');
    forall q | q in s'.requests ensures RequestInv(world, s', q) {
      if q in s.requests {
        RequestLater(world, s, s', q);
      }
    }
    forall e | EntryInv(world, s, e) ensures EntryInv(world, s', e) {
      EntryLater(world, s, s', e);
    }
    forall w | w in s'.writes ensures WriteInv(s', w) {
      assert WriteInv(s, w);
    }
  }

  lemma {:induction false} MovedRequests(s: State, r: nat, p: Phase)
    requires r < |s.requests|
    ensures forall q :: q in Move(s, r, p).requests ==> q in s.requests || q == s.requests[r].(phase := p)
  {
  }

  lemma {:induction false} MoveStep(world: World, s: State, r: nat, p: Phase)
    requires Inv(world, s) && r < |s.requests| && RequestInv(world, Tick(Move(s, r, p)), s.requests[r].(phase := p))
    ensures Inv(world, Tick(Move(s, r, p)))
  {
    MovedRequests(s, r, p);
    CalmStep(world, s, Tick(Move(s, r, p)));
  }

  /** What a request stores under its generation is an honest entry. */
  lemma {:induction false} HonestEntry(world: World, s: State, q: Request, seen: Seen, began: nat)
    requires SeenInv(s, q.tenant, seen) && seen.at < began && (forall w :: w in s.writes ==> WriteInv(s, w))
    requires Scoped(q.tenant, q.query, q.filters) && world.found(q.query, q.filters)
    ensures EntryInv(world, s, EntryOf(q, seen, began))
  {
  }

  /** Equal keys have equal generations, so an entry of the same tenant is fresh, and under
    * generation 0 there is nothing to be older than. */
  lemma {:induction false} ExactFresh(world: World, s: State, q: Request, seen: Seen, key: string)
    requires Inv(world, s) && key in s.exact && SeenInv(s, q.tenant, seen)
    requires IsKey(world.lower, q.query, q.filters, seen.gen, key)
    ensures Matched(world, q, seen, s.exact[key].began, ExactHit(s.exact[key]))
    ensures q.tenant != "" && seen.ok && !Foreign(q.tenant, ExactHit(s.exact[key])) ==>
              FreshFor(s, q.tenant, seen, s.exact[key].began)
  {
    var e := s.exact[key];
    assert ExactInv(world, s, key, e);
    SameGeneration(world.lower, q.query, q.filters, seen.gen, e.query, e.filters, e.gen, key);
    if q.tenant != "" && seen.ok && !Foreign(q.tenant, ExactHit(e)) {
      SameTenantFresh(world, s, q.tenant, seen, e);
    }
  }

  lemma {:induction false} SameTenantFresh(world: World, s: State, tenant: string, seen: Seen, e: Entry)
    requires SeenInv(s, tenant, seen) && EntryInv(world, s, e) && seen.ok && e.gen == seen.gen
    requires e.gen == 0 || e.tenant == tenant
    requires forall w :: w in s.writes ==> WriteInv(s, w)
    ensures FreshFor(s, tenant, seen, e.began)
  {
    forall w | w in s.writes && w.tenant == tenant && w.bump.Some? && w.bump.value.at < seen.at ensures w.at < e.began {
      assert WriteInv(s, w);
    }
  }

  // ---- every step keeps the invariant ----

  lemma {:induction false} LandStep(world: World, s: State, tenant: string)
    requires Inv(world, s) && Enabled(world, s, Land(tenant))
    ensures Inv(world, Do(world, s, Land(tenant)))
  {
    var s' := Do(world, s, Land(tenant));
    WorldStep(world, s, s');
  }

  lemma {:induction false} BumpStep(world: World, s: State, tenant: string, covered: set<nat>, ok: bool)
    requires Inv(world, s) && Enabled(world, s, Bump(tenant, covered, ok))
    ensures Inv(world, Do(world, s, Bump(tenant, covered, ok)))
  {
    var s' := Do(world, s, Bump(tenant, covered, ok));
    if ok {
      BumpLater(world, s, tenant, covered);
      BumpWriteInv(world, s, tenant, covered);
      WorldStep(world, s, s');
    } else {
      CalmStep(world, s, s');
    }
  }

  /** The world moved but no request and no cache did. */
  lemma {:induction false} WorldStep(world: World, s: State, s': State)
    requires Inv(world, s) && Later(s, s') && s'.requests == s.requests && s'.exact == s.exact
    requires s'.semantic == s.semantic
    requires (forall t :: GenKey(t) in s'.gens ==> IsId(t)) && s.clock < s'.clock
    requires forall w :: w in s'.writes ==> WriteInv(s', w)
    ensures Inv(world, s')
  {
    forall q | q in s'.requests ensures RequestInv(world, s', q) {
      RequestLater(world, s, s', q);
    }
    forall e | EntryInv(world, s, e) ensures EntryInv(world, s', e) {
      EntryLater(world, s, s', e);
    }
  }

  lemma {:induction false} ReadStep(world: World, s: State, r: nat, ok: bool)
    requires Inv(world, s) && Enabled(world, s, ReadGen(r, ok))
    ensures Inv(world, Do(world, s, ReadGen(r, ok)))
  {
    var s' := Do(world, s, ReadGen(r, ok));
    assert RequestInv(world, s, s.requests[r]);
    assert forall w :: w in s.writes ==> WriteInv(s, w);
    MovedRequests(s, r, s'.requests[r].phase);
    CalmStep(world, s, s');
  }

  lemma {:induction false} HitExactStep(world: World, s: State, r: nat, key: string)
    requires Inv(world, s) && Enabled(world, s, HitExact(r, key))
    ensures Inv(world, Do(world, s, HitExact(r, key)))
  {
    var s', q := Do(world, s, HitExact(r, key)), s.requests[r];
    assert RequestInv(world, s, q);
    ExactFresh(world, s, q, q.phase.seen, key);
    MoveStep(world, s, r, s'.requests[r].phase);
  }

  lemma {:induction false} HitSemanticStep(world: World, s: State, r: nat, e: Entry)
    requires Inv(world, s) && Enabled(world, s, HitSemantic(r, e))
    ensures Inv(world, Do(world, s, HitSemantic(r, e)))
  {
    var s', q := Do(world, s, HitSemantic(r, e)), s.requests[r];
    assert RequestInv(world, s, q) && EntryInv(world, s, e);
    if q.tenant != "" && q.phase.seen.ok {
      SameTenantFresh(world, s, q.tenant, q.phase.seen, e);
    }
    MoveStep(world, s, r, s'.requests[r].phase);
  }

  /** What a request is about to store is an honest entry, now and later. */
  lemma {:induction false} Storable(world: World, s: State, s': State, q: Request, seen: Seen, began: nat)
    requires Inv(world, s) && RequestInv(world, s, q) && Later(s, s')
    requires q.phase == Generated(seen, began) || q.phase == Cached(seen, began)
    ensures EntryInv(world, s', EntryOf(q, seen, began)) && SeenInv(s', q.tenant, seen)
  {
    HonestEntry(world, s, q, seen, began);
    EntryLater(world, s, s', EntryOf(q, seen, began));
    SeenLater(s, s', q.tenant, seen);
  }

  lemma {:induction false} StoreExactStep(world: World, s: State, r: nat, key: string, ok: bool)
    requires Inv(world, s) && Enabled(world, s, StoreExact(r, key, ok))
    ensures Inv(world, Do(world, s, StoreExact(r, key, ok)))
  {
    var s', q := Do(world, s, StoreExact(r, key, ok)), s.requests[r];
    assert RequestInv(world, s, q);
    Storable(world, s, s', q, q.phase.seen, q.phase.began);
    var p: Phase := Phase.Cached(q.phase.seen, q.phase.began);
    MoveStep(world, s, r, p);
    if ok {
      StoredStep(world, Tick(Move(s, r, p)), key, EntryOf(q, q.phase.seen, q.phase.began));
    }
  }

  lemma {:induction false} StoredStep(world: World, s: State, key: string, e: Entry)
    requires Inv(world, s) && ExactInv(world, s, key, e)
    ensures Inv(world, s.(exact := s.exact[key := e]))
  {
    CachesOnly(world, s, s.(exact := s.exact[key := e]));
  }

  lemma {:induction false} StoreSemanticStep(world: World, s: State, r: nat, ok: bool)
    requires Inv(world, s) && Enabled(world, s, StoreSemantic(r, ok))
    ensures Inv(world, Do(world, s, StoreSemantic(r, ok)))
  {
    var s', q := Do(world, s, StoreSemantic(r, ok)), s.requests[r];
    var seen, began := q.phase.seen, q.phase.began;
    assert RequestInv(world, s, q);
    Storable(world, s, s', q, seen, began);
    OwnAnswer(s, q, seen, began);
    MoveStep(world, s, r, Answered(seen, began, OwnRetrieval));
    if ok {
      LearnedStep(world, Tick(Move(s, r, Answered(seen, began, OwnRetrieval))), EntryOf(q, seen, began));
    }
  }

  lemma {:induction false} LearnedStep(world: World, s: State, e: Entry)
    requires Inv(world, s) && EntryInv(world, s, e)
    ensures Inv(world, s.(semantic := s.semantic + {e}))
  {
    CachesOnly(world, s, s.(semantic := s.semantic + {e}));
  }

  /** Facts about writes, entries and requests do not look at the caches. */
  lemma {:induction false} CachesOnly(world: World, s: State, s': State)
    requires s' == s.(exact := s'.exact, semantic := s'.semantic)
    ensures forall e :: EntryInv(world, s, e) ==> EntryInv(world, s', e)
    ensures forall q :: RequestInv(world, s, q) ==> RequestInv(world, s', q)
    ensures forall w :: WriteInv(s, w) ==> WriteInv(s', w)
  {
    forall e | EntryInv(world, s, e) ensures EntryInv(world, s', e) {
      EntryLater(world, s, s', e);
    }
    forall q | RequestInv(world, s, q) ensures RequestInv(world, s', q) {
      RequestLater(world, s, s', q);
    }
  }

  lemma {:induction false} OwnAnswer(s: State, q: Request, seen: Seen, began: nat)
    requires SeenInv(s, q.tenant, seen) && seen.at < began && forall w :: w in s.writes ==> WriteInv(s, w)
    ensures FreshFor(s, q.tenant, seen, began)
  {
    forall w | w in s.writes && w.tenant == q.tenant && w.bump.Some? && w.bump.value.at < seen.at ensures w.at < began {
      assert WriteInv(s, w);
    }
  }

  lemma {:induction false} MovingStep(world: World, s: State, a: Action)
    requires Inv(world, s) && Enabled(world, s, a) && (a.MissExact? || a.Begin? || a.Finish? || a.Stop?)
    ensures Inv(world, Do(world, s, a))
  {
    var s', q := Do(world, s, a), s.requests[a.r];
    assert RequestInv(world, s, q);
    SeenLater(s, s', q.tenant, q.phase.seen);
    MoveStep(world, s, a.r, s'.requests[a.r].phase);
  }

  lemma {:induction false} PlainStep(world: World, s: State, a: Action)
    requires Inv(world, s) && Enabled(world, s, a) && (a.Arrive? || a.Expire? || a.Drop?)
    ensures Inv(world, Do(world, s, a))
  {
    CalmStep(world, s, Do(world, s, a));
  }

  lemma {:induction false} StepInv(world: World, s: State, a: Action)
    requires Inv(world, s) && Enabled(world, s, a)
    ensures Inv(world, Do(world, s, a))
  {
    match a
    case Land(tenant) => LandStep(world, s, tenant);
    case Bump(tenant, covered, ok) => BumpStep(world, s, tenant, covered, ok);
    case ReadGen(r, ok) => ReadStep(world, s, r, ok);
    case HitExact(r, key) => HitExactStep(world, s, r, key);
    case HitSemantic(r, e) => HitSemanticStep(world, s, r, e);
    case StoreExact(r, key, ok) => StoreExactStep(world, s, r, key, ok);
    case StoreSemantic(r, ok) => StoreSemanticStep(world, s, r, ok);
    case MissExact(_) => MovingStep(world, s, a);
    case Begin(_) => MovingStep(world, s, a);
    case Finish(_) => MovingStep(world, s, a);
    case Stop(_) => MovingStep(world, s, a);
    case _ => PlainStep(world, s, a);
  }

  lemma {:induction false} RunInv(world: World, s: State, acts: seq<Action>, t: State)
    requires Inv(world, s) && Reaches(world, s, acts, t)
    ensures Inv(world, t)
    decreases |acts|
  {
    if acts != [] {
      StepInv(world, s, acts[0]);
      RunInv(world, Do(world, s, acts[0]), acts[1..], t);
    }
  }

  /** No stale reads: in every run, a request of a tenant whose generation read worked and came
    * after a write's bump is never answered, from either cache or afresh, by a retrieval that
    * began before that write reached the stores, unless the exact cache handed it an entry
    * another tenant had stored. */
  lemma {:induction false} NoStaleReads(world: World, acts: seq<Action>, s: State, r: nat, w: Written)
    requires Reaches(world, Init, acts, s) && r < |s.requests| && s.requests[r].phase.Answered?
    requires s.requests[r].tenant != "" && s.requests[r].phase.seen.ok
    requires !Foreign(s.requests[r].tenant, s.requests[r].phase.via)
    requires w in s.writes && w.tenant == s.requests[r].tenant
    requires w.bump.Some? && w.bump.value.at < s.requests[r].phase.seen.at
    ensures w.at < s.requests[r].phase.began
  {
    assert Inv(world, Init);
    RunInv(world, Init, acts, s);
    assert RequestInv(world, s, s.requests[r]);
  }
}
