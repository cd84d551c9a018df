/** How two stores that came apart find back together. */
module Agreement {
  import opened Stores
  import opened Protocol
  import opened Safety
  import opened Drain
  import opened Convergence

  /** OpenSearch takes the event lane `l` sends for `id` while no other lane has one on its way. */
  ghost predicate LoneWrite(c: Config, s: State, l: nat, id: string) {
    && Enabled(c, s, Write(l, id)) && Fresh(s.os, s.lanes[l].phase.todo[id])
    && forall m :: 0 <= m < |s.lanes| && m != l ==> !Between(s, m, id)
  }

  predicate WritesNo(acts: seq<Action>, id: string) {
    forall i :: 0 <= i < |acts| ==> !(acts[i].Write? && acts[i].id == id)
  }

  lemma {:induction false} Undisturbed(c: Config, s: State, a: Action, id: string)
    requires Enabled(c, s, a) && !(a.Write? && a.id == id)
    ensures var t := Do(c, s, a);
            && (id in t.overlapped <==> id in s.overlapped)
            && (id in t.inDoubt <==> id in s.inDoubt && !(a.Vector? && a.id == id))
            && (id in s.os ==> id in t.os)
  {
    if a.Write? {
      OtherWrite(s, a.l, a.id, id);
    }
  }

  lemma {:induction false} OtherWrite(s: State, l: nat, written: string, id: string)
    requires l < |s.lanes| && s.lanes[l].phase.Writing? && written in s.lanes[l].phase.todo && written != id
    ensures var t := DoWrite(s, l, written);
            (id in t.overlapped <==> id in s.overlapped) && (id in t.inDoubt <==> id in s.inDoubt)
  {
  }

  /** Without another write of `id` it stays unoverlapped, and once its vector write has happened
    * it is no longer in doubt. */
  lemma {:induction false} UndisturbedRun(c: Config, s: State, acts: seq<Action>, t: State, id: string)
    requires Reaches(c, s, acts, t) && WritesNo(acts, id)
    ensures id !in s.overlapped ==> id !in t.overlapped
    ensures id in s.os ==> id in t.os
    ensures id !in s.inDoubt || VectorsOf(acts, id) ==> id !in t.inDoubt
    decreases |acts|
  {
    if acts != [] {
      Undisturbed(c, s, acts[0], id);
      UndisturbedRun(c, Do(c, s, acts[0]), acts[1..], t, id);
      if VectorsOf(acts, id) && !(acts[0].Vector? && acts[0].id == id) {
        var i :| 0 <= i < |acts| && acts[i].Vector? && acts[i].id == id;
        assert acts[1..][i - 1] == acts[i];
      }
    }
  }

  predicate VectorsOf(acts: seq<Action>, id: string) {
    exists i :: 0 <= i < |acts| && acts[i].Vector? && acts[i].id == id
  }

  lemma {:induction false} LoneWriteClears(c: Config, s: State, l: nat, id: string)
    requires LoneWrite(c, s, l, id) && s.lanes[l].phase.todo[id].docId == id
    ensures var t := Do(c, s, Write(l, id)); id !in t.overlapped && id in t.os
  {
  }

  lemma {:induction false} TodoIsKeyed(c: Config, s: State, l: nat, id: string)
    requires Reachable(c, s) && Enabled(c, s, Write(l, id))
    ensures s.lanes[l].phase.todo[id].docId == id
  {
    ReachableInv(c, s);
    assert LaneInv(c.logs[l], s.lanes[l], s.os);
    NewestWellKeyed(s.lanes[l].batch);
  }

  /** Agreement is restored: however the stores came to differ on a document, one event that
    * OpenSearch takes while no other lane has one on its way, followed by its vector write before
    * another event is taken, makes them agree again. */
  lemma {:induction false} AgreementRestored(c: Config, s: State, l: nat, id: string, acts: seq<Action>, t: State)
    requires Reachable(c, s) && LoneWrite(c, s, l, id)
    requires Reaches(c, Do(c, s, Write(l, id)), acts, t) && WritesNo(acts, id) && VectorsOf(acts, id)
    ensures id in t.os && id in t.vec && t.vec[id].version == t.os[id].version
    ensures Searchable(t.os, id) <==> Searchable(t.vec, id)
  {
    var s1 := Do(c, s, Write(l, id));
    TodoIsKeyed(c, s, l, id);
    LoneWriteClears(c, s, l, id);
    UndisturbedRun(c, s1, acts, t, id);
    One(c, s, Write(l, id), acts, t);
    ReachableThen(c, s, [Write(l, id)] + acts, t);
    StoreAgreement(c, t, id);
  }
}
