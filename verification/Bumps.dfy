/** Which of the writes OpenSearch took are followed by a bump of their tenant's generation. */
module Bumps {
  import opened Contract
  import opened Stores
  import opened Protocol
  import opened Safety
  import opened Drain

  ghost predicate Mentions(m: Store, tenant: int) {
    exists id :: id in m && m[id].tenantId == tenant
  }

  /** The flush has still to bump the tenant for something OpenSearch took. */
  ghost predicate Owes(p: Phase, tenant: int) {
    match p
    case Polling => false
    case Filtering(_, _) => false
    case Writing(_, applied) => Mentions(applied, tenant)
    case Embedding(_, applied) => Mentions(applied, tenant)
    case Settling(todo, tenants) => Mentions(todo, tenant) || tenant in tenants
    case Bumping(tenants) => tenant in tenants
  }

  /** How the debt of lane `l` to the tenant is settled: the bump succeeds, Redis does not answer, or
    * a failure or a crash ends the flush first. */
  datatype Due = Open | Bumped | Missed | Cut

  function Settled(a: Action, l: nat, tenant: int): Due {
    if a == Fail(l) || a == Crash then Cut
    else if a.Bump? && a.l == l && a.tenant == tenant then if a.ok then Bumped else Missed
    else Open
  }

  /** What settles the debt first. */
  function DueOf(acts: seq<Action>, l: nat, tenant: int): Due {
    if acts == [] then Open
    else if Settled(acts[0], l, tenant) != Open then Settled(acts[0], l, tenant)
    else DueOf(acts[1..], l, tenant)
  }

  // ---- a debt stays until it is settled ----

  lemma {:induction false} MentionsRest(m: Store, id: string, tenant: int)
    requires id in m
    ensures Mentions(m, tenant) ==> Mentions(m - {id}, tenant) || m[id].tenantId == tenant
  {
    if Mentions(m, tenant) {
      var i :| i in m && m[i].tenantId == tenant;
      assert i != id ==> i in m - {id};
    }
  }

  lemma {:induction false} MentionsMore(m: Store, id: string, d: CanonicalDoc, tenant: int)
    requires id !in m
    ensures Mentions(m, tenant) || d.tenantId == tenant ==> Mentions(m[id := d], tenant)
  {
    if Mentions(m, tenant) {
      var i :| i in m && m[i].tenantId == tenant;
      assert i in m[id := d] && m[id := d][i].tenantId == tenant;
    }
    if d.tenantId == tenant {
      assert id in m[id := d] && m[id := d][id].tenantId == tenant;
    }
  }

  /** No item is both still to be sent and already applied. */
  ghost predicate Apart(p: Phase) {
    p.Writing? ==> p.todo.Keys !! p.applied.Keys
  }

  lemma {:induction false} WriteOwes(c: Config, s: State, l: nat, id: string, tenant: int)
    requires Enabled(c, s, Write(l, id)) && Apart(s.lanes[l].phase)
    ensures var d, p := s.lanes[l].phase.todo[id], Do(c, s, Write(l, id)).lanes[l].phase;
            Owes(s.lanes[l].phase, tenant) || (Fresh(s.os, d) && d.tenantId == tenant) ==> Owes(p, tenant)
  {
    var p := s.lanes[l].phase;
    MentionsMore(p.applied, id, p.todo[id], tenant);
  }

  lemma {:induction false} OwnAction(c: Config, s: State, a: Action, tenant: int)
    requires Enabled(c, s, a) && !a.Crash? && !a.Write?
    requires Owes(s.lanes[a.l].phase, tenant) && Settled(a, a.l, tenant) == Open
    ensures Owes(Do(c, s, a).lanes[a.l].phase, tenant)
  {
    if a.Remember? {
      MentionsRest(s.lanes[a.l].phase.todo, a.id, tenant);
    }
  }

  lemma {:induction false} OtherAction(c: Config, s: State, a: Action, l: nat)
    requires Enabled(c, s, a) && !a.Crash? && a.l != l && l < |s.lanes|
    ensures var t := Do(c, s, a); |t.lanes| == |s.lanes| && t.lanes[l] == s.lanes[l]
  {
  }

  lemma {:induction false} OwedStep(c: Config, s: State, a: Action, l: nat, tenant: int)
    requires Enabled(c, s, a) && l < |s.lanes| && Apart(s.lanes[l].phase)
    requires Owes(s.lanes[l].phase, tenant) && Settled(a, l, tenant) == Open
    ensures var t := Do(c, s, a); l < |t.lanes| && Owes(t.lanes[l].phase, tenant)
  {
    if a.l != l {
      OtherAction(c, s, a, l);
    } else if a.Write? {
      WriteOwes(c, s, l, a.id, tenant);
    } else {
      OwnAction(c, s, a, tenant);
    }
  }

  lemma {:induction false} LaneApart(c: Config, s: State, l: nat)
    requires Inv(c, s) && l < |s.lanes|
    ensures Apart(s.lanes[l].phase)
  {
    assert LaneInv(c.logs[l], s.lanes[l], s.os);
  }

  lemma {:induction false} OwedUntilSettled(c: Config, s: State, acts: seq<Action>, t: State, l: nat, tenant: int)
    requires Inv(c, s) && Reaches(c, s, acts, t) && l < |s.lanes| && Owes(s.lanes[l].phase, tenant)
    ensures DueOf(acts, l, tenant) == Open ==> l < |t.lanes| && Owes(t.lanes[l].phase, tenant)
    decreases |acts|
  {
    if acts != [] && Settled(acts[0], l, tenant) == Open {
      LaneApart(c, s, l);
      OwedStep(c, s, acts[0], l, tenant);
      StepInv(c, s, acts[0]);
      OwedUntilSettled(c, Do(c, s, acts[0]), acts[1..], t, l, tenant);
    }
  }

  // ---- generations count bumps ----

  /** The bumps of the tenant that Redis answered. */
  function BumpsOf(acts: seq<Action>, tenant: int): nat {
    if acts == [] then 0
    else (if acts[0].Bump? && acts[0].tenant == tenant && acts[0].ok then 1 else 0) + BumpsOf(acts[1..], tenant)
  }

  lemma {:induction false} GenStep(c: Config, s: State, a: Action, tenant: int)
    requires Enabled(c, s, a)
    ensures GenOf(Do(c, s, a), tenant) ==
            GenOf(s, tenant) + if a.Bump? && a.tenant == tenant && a.ok then 1 else 0
  {
  }

  /** A generation is the number of successful bumps, nothing else. */
  lemma {:induction false} GenerationsCount(c: Config, s: State, acts: seq<Action>, t: State, tenant: int)
    requires Reaches(c, s, acts, t)
    ensures GenOf(t, tenant) == GenOf(s, tenant) + BumpsOf(acts, tenant)
    decreases |acts|
  {
    if acts != [] {
      GenStep(c, s, acts[0], tenant);
      GenerationsCount(c, Do(c, s, acts[0]), acts[1..], t, tenant);
    }
  }

  lemma {:induction false} BumpedCounts(acts: seq<Action>, l: nat, tenant: int)
    requires DueOf(acts, l, tenant) == Bumped
    ensures BumpsOf(acts, tenant) > 0
  {
    if Settled(acts[0], l, tenant) == Open {
      BumpedCounts(acts[1..], l, tenant);
    }
  }

  // ---- the writes OpenSearch took ----

  /** A write that was taken, in every complete run: its flush bumps its tenant, which raises the
    * generation, or Redis does not answer that bump, or a failure or a crash cuts the flush short. */
  lemma {:induction false} TakenWriteIsSettled(c: Config, s: State, l: nat, id: string, acts: seq<Action>, t: State)
    requires Reachable(c, s) && Enabled(c, s, Write(l, id)) && Fresh(s.os, s.lanes[l].phase.todo[id])
    requires Reaches(c, Do(c, s, Write(l, id)), acts, t)
    ensures var tenant := s.lanes[l].phase.todo[id].tenantId;
            && (Quiescent(c, t) ==> DueOf(acts, l, tenant) != Open)
            && (DueOf(acts, l, tenant) == Bumped ==> GenOf(t, tenant) > GenOf(s, tenant))
  {
    var tenant, s1 := s.lanes[l].phase.todo[id].tenantId, Do(c, s, Write(l, id));
    ReachableInv(c, s);
    LaneApart(c, s, l);
    WriteOwes(c, s, l, id, tenant);
    StepInv(c, s, Write(l, id));
    OwedUntilSettled(c, s1, acts, t, l, tenant);
    if Quiescent(c, t) && l < |t.lanes| {
      assert Drained(c, t, l);
    }
    GenStep(c, s, Write(l, id), tenant);
    GenerationsCount(c, s1, acts, t, tenant);
    if DueOf(acts, l, tenant) == Bumped {
      BumpedCounts(acts, l, tenant);
    }
  }

  lemma {:induction false} StoreForward(c: Config, s: State, a: Action)
    requires Inv(c, s) && Enabled(c, s, a)
    ensures Grows(s.os, Do(c, s, a).os)
  {
    if a.Write? {
      assert LaneInv(c.logs[a.l], s.lanes[a.l], s.os);
      NewestWellKeyed(s.lanes[a.l].batch);
      WriteShape(c, s, a.l, a.id);
    } else {
      SameIndex(c, s, a);
    }
  }

  lemma {:induction false} SameIndex(c: Config, s: State, a: Action)
    requires Enabled(c, s, a) && !a.Write?
    ensures Do(c, s, a).os == s.os
  {
  }

  /** Once cut short the debt is gone for good: whatever retries and replays follow, OpenSearch takes
    * the event no second time, so no flush comes to owe a bump for it again. */
  lemma {:induction false} NeverTakenAgain(c: Config, s: State, acts: seq<Action>, t: State, d: CanonicalDoc)
    requires Inv(c, s) && Reaches(c, s, acts, t) && Covers(s.os, d)
    ensures Covers(t.os, d) && Inv(c, t)
    decreases |acts|
  {
    if acts != [] {
      StoreForward(c, s, acts[0]);
      StepInv(c, s, acts[0]);
      NeverTakenAgain(c, Do(c, s, acts[0]), acts[1..], t, d);
    }
  }
}
