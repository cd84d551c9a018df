/** The indexing protocol of cmd/indexer/main.go as a step system.
  *
  * Any number of lanes (the program starts two) share one guard and two stores. A lane polls
  * its log, buffers the valid records and, when it flushes, walks through the phases of `apply`
  * one document at a time, so every interleaving of two lanes inside `apply` is a run. A run is
  * a list of actions; each action names every choice the environment makes.
  */
module Protocol {
  import opened Contract
  import opened Stores

  /** A message on a lane topic: undecodable bytes, or a decoded document. */
  datatype Record = Garbled | Parsed(doc: CanonicalDoc)

  predicate Good(r: Record) {
    r.Parsed? && Validate(r.doc).Accepted?
  }

  function GoodDocs(log: seq<Record>): seq<CanonicalDoc> {
    if log == [] then []
    else GoodDocs(log[..|log| - 1]) + (if Good(log[|log| - 1]) then [log[|log| - 1].doc] else [])
  }

  /** Where a lane stands inside `flushBatch`. The maps are keyed by document id, and the
    * program's own order through them is a map iteration order, so any order is possible. */
  datatype Phase =
    | Polling
    | Filtering(todo: Store, kept: Store)       // asking the guard
    | Writing(todo: Store, applied: Store)      // the OpenSearch bulk request
    | Embedding(todo: Store, applied: Store)    // the vectors still to be written
    | Settling(todo: Store, tenants: set<int>)  // committing the guard
    | Bumping(tenants: set<int>)                // cache generations still to be bumped

  /** `start` is where the buffered batch begins in the log. The program does not keep it: it is
    * the number of records whose effect no longer depends on this lane's memory. */
  datatype Lane = Lane(start: nat, polled: nat, committed: nat, batch: seq<CanonicalDoc>, phase: Phase)

  /** `accepted`, `inDoubt`, `overlapped` and `dead` are bookkeeping that no action reads:
    * every event OpenSearch took; the ids taken by OpenSearch whose vector write has not
    * happened; the ids whose last event was taken while another lane still had an earlier one on
    * its way to the vector store; and the (lane, offset) pairs handed to the dead-letter queue. */
  datatype State = State(
    lanes: seq<Lane>,
    guard: map<string, int>,
    os: Store,
    vec: Store,
    gens: map<int, nat>,
    accepted: set<CanonicalDoc>,
    inDoubt: set<string>,
    overlapped: set<string>,
    dead: set<(nat, nat)>
  )

  /** The topics, one log a lane, and whether the in-memory guard is consulted at all. */
  datatype Config = Config(logs: seq<seq<Record>>, useGuard: bool)

  datatype Action =
    | Poll(l: nat, count: nat)             // fetch `count` records; bad ones go to the DLQ
    | Flush(l: nat)                        // start `apply` on the buffered batch
    | Filter(l: nat, id: string)           // guard.ShouldApply for one document
    | Submit(l: nat)                       // all asked: send the bulk request, or return early
    | Write(l: nat, id: string)            // OpenSearch processes one bulk item
    | Embed(l: nat)                        // every item answered: go on to the vector store
    | Vector(l: nat, id: string)           // Qdrant processes one point write
    | Settle(l: nat)                       // both stores answered
    | Remember(l: nat, id: string)         // guard.Commit for one document
    | Invalidate(l: nat)                   // start bumping generations
    | Bump(l: nat, tenant: int, ok: bool)  // best effort
    | Ack(l: nat, ok: bool)                // commit offsets; a failure is only logged
    | Fail(l: nat)                         // any error inside the two store phases
    | Crash                                // the process dies: memory is lost, stores are not

  function Pending(p: Phase): Store {
    if p.Writing? then p.applied else if p.Embedding? then p.todo else map[]
  }

  predicate Between(s: State, l: nat, id: string)
    requires l < |s.lanes|
  {
    id in Pending(s.lanes[l].phase)
  }

  predicate ShouldApply(guard: map<string, int>, d: CanonicalDoc) {
    d.docId !in guard || d.version > guard[d.docId]
  }

  function Forward(guard: map<string, int>, d: CanonicalDoc): map<string, int> {
    if ShouldApply(guard, d) then guard[d.docId := d.version] else guard
  }

  predicate OnLane(c: Config, s: State, l: nat) {
    |s.lanes| == |c.logs| && l < |s.lanes|
  }

  predicate Enabled(c: Config, s: State, a: Action) {
    match a
    case Poll(l, count) => OnLane(c, s, l) && s.lanes[l].phase.Polling? && s.lanes[l].polled + count <= |c.logs[l]|
    case Flush(l) => OnLane(c, s, l) && s.lanes[l].phase.Polling? && s.lanes[l].batch != []
    case Filter(l, id) => OnLane(c, s, l) && s.lanes[l].phase.Filtering? && id in s.lanes[l].phase.todo
    case Submit(l) => OnLane(c, s, l) && s.lanes[l].phase.Filtering? && s.lanes[l].phase.todo == map[]
    case Write(l, id) => OnLane(c, s, l) && s.lanes[l].phase.Writing? && id in s.lanes[l].phase.todo
    case Embed(l) => OnLane(c, s, l) && s.lanes[l].phase.Writing? && s.lanes[l].phase.todo == map[]
    case Vector(l, id) => OnLane(c, s, l) && s.lanes[l].phase.Embedding? && id in s.lanes[l].phase.todo
    case Settle(l) => OnLane(c, s, l) && s.lanes[l].phase.Embedding? && s.lanes[l].phase.todo == map[]
    case Remember(l, id) => OnLane(c, s, l) && s.lanes[l].phase.Settling? && id in s.lanes[l].phase.todo
    case Invalidate(l) => OnLane(c, s, l) && s.lanes[l].phase.Settling? && s.lanes[l].phase.todo == map[]
    case Bump(l, tenant, ok) => OnLane(c, s, l) && s.lanes[l].phase.Bumping? && tenant in s.lanes[l].phase.tenants
    case Ack(l, ok) => OnLane(c, s, l) && s.lanes[l].phase == Bumping({})
    case Fail(l) => OnLane(c, s, l) && (s.lanes[l].phase.Writing? || s.lanes[l].phase.Embedding?)
    case Crash => |s.lanes| == |c.logs|
  }

  function SetLane(s: State, l: nat, lane: Lane): State
    requires l < |s.lanes|
  {
    s.(lanes := s.lanes[l := lane])
  }

  function SetPhase(s: State, l: nat, p: Phase): State
    requires l < |s.lanes|
  {
    SetLane(s, l, s.lanes[l].(phase := p))
  }

  function Do(c: Config, s: State, a: Action): State
    requires Enabled(c, s, a)
  {
    match a
    case Poll(l, count) => DoPoll(c, s, l, count)
    case Flush(l) => SetPhase(s, l, Filtering(Newest(s.lanes[l].batch), map[]))
    case Filter(l, id) =>
      var p := s.lanes[l].phase;
      var keep := !c.useGuard || ShouldApply(s.guard, p.todo[id]);
      SetPhase(s, l, Filtering(p.todo - {id}, if keep then p.kept[id := p.todo[id]] else p.kept))
    case Submit(l) =>
      var kept := s.lanes[l].phase.kept;
      SetPhase(s, l, if kept == map[] then Bumping({}) else Writing(kept, map[]))
    case Write(l, id) => DoWrite(s, l, id)
    case Embed(l) =>
      var applied := s.lanes[l].phase.applied;
      SetPhase(s, l, Embedding(applied, applied))
    case Vector(l, id) => DoVector(s, l, id)
    case Settle(l) => SetPhase(s, l, Settling(s.lanes[l].phase.applied, {}))
    case Remember(l, id) =>
      var p := s.lanes[l].phase;
      SetPhase(s, l, Settling(p.todo - {id}, p.tenants + {p.todo[id].tenantId}))
        .(guard := Forward(s.guard, p.todo[id]))
    case Invalidate(l) => SetPhase(s, l, Bumping(s.lanes[l].phase.tenants))
    case Bump(l, tenant, ok) =>
      SetPhase(s, l, Bumping(s.lanes[l].phase.tenants - {tenant}))
        .(gens := if ok then s.gens[tenant := GenOf(s, tenant) + 1] else s.gens)
    case Ack(l, ok) =>
      var lane := s.lanes[l];
      SetLane(s, l, Lane(lane.polled, lane.polled, if ok then lane.polled else lane.committed, [], Polling))
    case Fail(l) => SetPhase(s, l, Polling)
    case Crash => s.(lanes := seq(|s.lanes|, l requires 0 <= l < |s.lanes| => Restart(s.lanes[l])), guard := map[])
  }

  function GenOf(s: State, tenant: int): nat {
    if tenant in s.gens then s.gens[tenant] else 0
  }

  function Restart(lane: Lane): Lane {
    Lane(lane.committed, lane.committed, lane.committed, [], Polling)
  }

  function DoPoll(c: Config, s: State, l: nat, count: nat): State
    requires Enabled(c, s, Poll(l, count))
  {
    var lane := s.lanes[l];
    var next := lane.polled + count;
    var bad := set i | lane.polled <= i < next && !Good(c.logs[l][i]) :: (l, i);
    SetLane(s, l, lane.(polled := next, batch := lane.batch + GoodDocs(c.logs[l][lane.polled..next])))
      .(dead := s.dead + bad)
  }

  /** A bulk item: taken when fresh (2xx, or 404 on a delete), otherwise a 409 and no effect. */
  function DoWrite(s: State, l: nat, id: string): State
    requires l < |s.lanes| && s.lanes[l].phase.Writing? && id in s.lanes[l].phase.todo
  {
    var p := s.lanes[l].phase;
    var d := p.todo[id];
    if Fresh(s.os, d) then
      SetPhase(s, l, Writing(p.todo - {id}, p.applied[id := d])).(
        os := s.os[d.docId := d],
        accepted := s.accepted + {d},
        inDoubt := s.inDoubt + {id},
        overlapped := if exists m :: 0 <= m < |s.lanes| && m != l && Between(s, m, id)
                      then s.overlapped + {id} else s.overlapped - {id})
    else
      SetPhase(s, l, Writing(p.todo - {id}, p.applied))
  }

  /** A vector write: an upsert overwrites the point, a delete removes it. */
  function DoVector(s: State, l: nat, id: string): State
    requires l < |s.lanes| && s.lanes[l].phase.Embedding? && id in s.lanes[l].phase.todo
  {
    var p := s.lanes[l].phase;
    SetPhase(s, l, Embedding(p.todo - {id}, p.applied))
      .(vec := s.vec[id := p.todo[id]], inDoubt := s.inDoubt - {id})
  }

  function Init(c: Config): State {
    State(seq(|c.logs|, _ => Lane(0, 0, 0, [], Polling)), map[], map[], map[], map[], {}, {}, {}, {})
  }

  /** `acts` leads from `s` to `t`. */
  predicate Reaches(c: Config, s: State, acts: seq<Action>, t: State)
    decreases |acts|
  {
    if acts == [] then s == t
    else Enabled(c, s, acts[0]) && Reaches(c, Do(c, s, acts[0]), acts[1..], t)
  }

  ghost predicate Reachable(c: Config, s: State) {
    exists acts :: Reaches(c, Init(c), acts, s)
  }

  lemma {:induction false} ReachesConcat(c: Config, s: State, a: seq<Action>, t: State, b: seq<Action>, u: State)
    requires Reaches(c, s, a, t) && Reaches(c, t, b, u)
    ensures Reaches(c, s, a + b, u)
    decreases |a|
  {
    if a == [] {
      assert a + b == b;
    } else {
      assert (a + b)[1..] == a[1..] + b;
      ReachesConcat(c, Do(c, s, a[0]), a[1..], t, b, u);
    }
  }

  lemma {:induction false} GoodDocsConcat(a: seq<Record>, b: seq<Record>)
    ensures GoodDocs(a + b) == GoodDocs(a) + GoodDocs(b)
    decreases |b|
  {
    if b == [] {
      assert a + b == a;
    } else {
      assert (a + b)[..|a + b| - 1] == a + b[..|b| - 1];
      GoodDocsConcat(a, b[..|b| - 1]);
    }
  }
}
