/** What the version guard is for: work it has seen done is dropped when it comes again
  * (internal/idempotency/guard.go, cmd/indexer/main.go). */
module Recall {
  import opened Contract
  import opened Stores
  import opened Protocol

  /** The guard knows the document at least at that version. */
  predicate Knows(guard: map<string, int>, d: CanonicalDoc) {
    d.docId in guard && guard[d.docId] >= d.version
  }

  predicate NoCrash(acts: seq<Action>) {
    forall i :: 0 <= i < |acts| ==> acts[i] != Crash
  }

  /** Lane `l` has yet to commit `d` to the guard. */
  predicate Owing(s: State, l: nat, d: CanonicalDoc) {
    && l < |s.lanes| && s.lanes[l].phase.Settling?
    && d.docId in s.lanes[l].phase.todo && s.lanes[l].phase.todo[d.docId] == d
  }

  lemma {:induction false} KnownStays(c: Config, s: State, a: Action, d: CanonicalDoc)
    requires Enabled(c, s, a) && a != Crash && Knows(s.guard, d)
    ensures Knows(Do(c, s, a).guard, d)
  {
  }

  /** A lane that owes a commit makes it before it goes on. */
  lemma {:induction false} OwingStep(c: Config, s: State, a: Action, l: nat, d: CanonicalDoc)
    requires Enabled(c, s, a) && a != Crash && Owing(s, l, d)
    ensures Owing(Do(c, s, a), l, d) || Knows(Do(c, s, a).guard, d)
  {
  }

  /** In every run without a crash, a document a lane was to commit is known to the guard as soon as the
    * lane has gone on. */
  lemma {:induction false} KnownOnce(c: Config, s: State, acts: seq<Action>, t: State, l: nat, d: CanonicalDoc)
    requires Reaches(c, s, acts, t) && NoCrash(acts) && (Owing(s, l, d) || Knows(s.guard, d))
    ensures Owing(t, l, d) || Knows(t.guard, d)
    decreases |acts|
  {
    if acts != [] {
      assert acts[0] != Crash;
      if Knows(s.guard, d) {
        KnownStays(c, s, acts[0], d);
      } else {
        OwingStep(c, s, acts[0], l, d);
      }
      assert NoCrash(acts[1..]);
      KnownOnce(c, Do(c, s, acts[0]), acts[1..], t, l, d);
    }
  }

  /** So whenever, in a run without a crash, both stores have answered for an event, any event of that
    * document that is not newer is dropped before it reaches a store again; without a guard, or after a
    * crash, every event is let through. */
  lemma {:induction false} DoneWorkIsDropped(c: Config, s: State, acts: seq<Action>, t: State, l: nat, d: CanonicalDoc,
                                             m: nat, id: string)
    requires Owing(s, l, d) && Reaches(c, s, acts, t) && NoCrash(acts) && !Owing(t, l, d)
    requires Enabled(c, t, Filter(m, id)) && id == d.docId && WellKeyed(t.lanes[m].phase.todo)
    requires c.useGuard && t.lanes[m].phase.todo[id].version <= d.version
    ensures var p := Do(c, t, Filter(m, id)).lanes[m].phase;
            p.Filtering? && id !in p.todo && p.kept == t.lanes[m].phase.kept
  {
    KnownOnce(c, s, acts, t, l, d);
  }

  lemma {:induction false} ForgottenAfterCrash(c: Config, s: State, m: nat, id: string)
    requires Enabled(c, s, Filter(m, id)) && (!c.useGuard || s.guard == map[])
    ensures var p := Do(c, s, Filter(m, id)).lanes[m].phase;
            p.Filtering? && id in p.kept && p.kept[id] == s.lanes[m].phase.todo[id]
    ensures Do(c, s, Crash).guard == map[]
  {
  }
}
