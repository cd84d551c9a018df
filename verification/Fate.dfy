/** What becomes of a document's last write, read off the run itself. */
module Fate {
  import opened Stores
  import opened Protocol
  import opened Safety
  import opened Drain
  import opened Convergence

  /** Of the last event OpenSearch took of a document: none was taken; it is on its way to Qdrant;
    * it got there; a failure or a crash hit it on the way; or it was taken while another lane still
    * had an earlier one on its way. */
  datatype Fate = Untaken | OnItsWay | Landed | Lost | Tangled

  predicate Takes(c: Config, s: State, a: Action, id: string)
    requires Enabled(c, s, a)
  {
    a.Write? && a.id == id && Fresh(s.os, s.lanes[a.l].phase.todo[id])
  }

  predicate OthersPending(s: State, l: nat, id: string) {
    exists m :: 0 <= m < |s.lanes| && m != l && Between(s, m, id)
  }

  /** A failure or a crash while an event of the document is on its way. */
  predicate Hits(c: Config, s: State, a: Action, id: string)
    requires Enabled(c, s, a)
  {
    (a.Crash? && exists m :: 0 <= m < |s.lanes| && Between(s, m, id)) || (a.Fail? && Between(s, a.l, id))
  }

  /** The fate after one action. */
  function Next(c: Config, s: State, a: Action, id: string, f: Fate): Fate
    requires Enabled(c, s, a)
  {
    if Takes(c, s, a, id) then if OthersPending(s, a.l, id) then Tangled else OnItsWay
    else if f == OnItsWay && a.Vector? && a.id == id then Landed
    else if f == OnItsWay && Hits(c, s, a, id) then Lost
    else f
  }

  function FateOf(c: Config, s: State, acts: seq<Action>, t: State, id: string, f: Fate): Fate
    requires Reaches(c, s, acts, t)
    decreases |acts|
  {
    if acts == [] then f
    else FateOf(c, Do(c, s, acts[0]), acts[1..], t, id, Next(c, s, acts[0], id, f))
  }

  // ---- what a fate says about the state ----

  ghost predicate NobodyCarries(s: State, id: string) {
    forall m :: 0 <= m < |s.lanes| ==> !Between(s, m, id)
  }

  ghost predicate FateInv(s: State, id: string, f: Fate) {
    match f
    case Untaken => id !in s.os && id !in s.inDoubt && id !in s.overlapped && NobodyCarries(s, id)
    case OnItsWay => id in s.os && id in s.inDoubt && id !in s.overlapped && !NobodyCarries(s, id)
    case Landed => id in s.os && id !in s.inDoubt && id !in s.overlapped && NobodyCarries(s, id)
    case Lost => id in s.os && id in s.inDoubt && id !in s.overlapped && NobodyCarries(s, id)
    case Tangled => id in s.os && id in s.overlapped
  }

  /** Nothing that matters for the document has changed. */
  ghost predicate Untouched(s: State, t: State, id: string) {
    && (id in t.os <==> id in s.os) && (id in t.inDoubt <==> id in s.inDoubt)
    && (id in t.overlapped <==> id in s.overlapped)
    && |t.lanes| == |s.lanes| && forall m :: 0 <= m < |s.lanes| ==> Between(t, m, id) == Between(s, m, id)
  }

  lemma {:induction false} UntouchedFate(s: State, t: State, id: string, f: Fate)
    requires Untouched(s, t, id) && FateInv(s, id, f)
    ensures FateInv(t, id, f)
  {
  }

  /** One lane's phase moved, but not what it carries for the document. */
  lemma {:induction false} LaneMoves(s: State, t: State, l: nat, id: string)
    requires l < |s.lanes| == |t.lanes| && t.lanes == s.lanes[l := t.lanes[l]]
    requires Between(t, l, id) == Between(s, l, id)
    ensures forall m :: 0 <= m < |s.lanes| ==> Between(t, m, id) == Between(s, m, id)
  {
  }

  lemma {:induction false} QuietAction(c: Config, s: State, a: Action, id: string)
    requires Enabled(c, s, a) && !a.Write? && !a.Vector? && !a.Fail? && !a.Crash?
    ensures Untouched(s, Do(c, s, a), id)
  {
    LaneMoves(s, Do(c, s, a), a.l, id);
  }

  lemma {:induction false} OtherDocument(c: Config, s: State, a: Action, id: string)
    requires Enabled(c, s, a) && (a.Write? || a.Vector?) && a.id != id
    requires a.Write? ==> s.lanes[a.l].phase.todo[a.id].docId == a.id
    ensures Untouched(s, Do(c, s, a), id)
  {
    LaneMoves(s, Do(c, s, a), a.l, id);
  }

  lemma {:induction false} RefusedWrite(c: Config, s: State, l: nat, id: string)
    requires Enabled(c, s, Write(l, id)) && !Fresh(s.os, s.lanes[l].phase.todo[id])
    ensures Untouched(s, Do(c, s, Write(l, id)), id)
  {
    LaneMoves(s, Do(c, s, Write(l, id)), l, id);
  }

  lemma {:induction false} TakenWrite(c: Config, s: State, l: nat, id: string)
    requires Enabled(c, s, Write(l, id)) && Fresh(s.os, s.lanes[l].phase.todo[id])
    requires s.lanes[l].phase.todo[id].docId == id
    ensures FateInv(Do(c, s, Write(l, id)), id, if OthersPending(s, l, id) then Tangled else OnItsWay)
  {
    var t := Do(c, s, Write(l, id));
    assert Between(t, l, id);
  }

  /** A lane lets go of the document: by writing its vector, or by giving up. */
  lemma {:induction false} LetsGo(s: State, t: State, l: nat, id: string)
    requires l < |s.lanes| == |t.lanes| && t.lanes == s.lanes[l := t.lanes[l]]
    requires Between(s, l, id) && !Between(t, l, id) && NoHiddenOverlap(s) && id !in s.overlapped
    ensures NobodyCarries(t, id)
  {
    forall m | 0 <= m < |t.lanes| && m != l ensures !Between(t, m, id) {
      assert !Between(s, m, id);
    }
  }

  lemma {:induction false} VectorWritten(c: Config, s: State, l: nat, id: string, f: Fate)
    requires NoHiddenOverlap(s) && Enabled(c, s, Vector(l, id)) && FateInv(s, id, f)
    ensures FateInv(Do(c, s, Vector(l, id)), id, if f == OnItsWay then Landed else f)
  {
    assert Between(s, l, id);
    if f == OnItsWay {
      LetsGo(s, Do(c, s, Vector(l, id)), l, id);
    }
  }

  lemma {:induction false} GaveUp(c: Config, s: State, l: nat, id: string, f: Fate)
    requires NoHiddenOverlap(s) && Enabled(c, s, Fail(l)) && FateInv(s, id, f)
    ensures FateInv(Do(c, s, Fail(l)), id, if f == OnItsWay && Between(s, l, id) then Lost else f)
  {
    var t := Do(c, s, Fail(l));
    if Between(s, l, id) {
      if f == OnItsWay {
        LetsGo(s, t, l, id);
      }
    } else {
      LaneMoves(s, t, l, id);
      assert Untouched(s, t, id);
    }
  }

  lemma {:induction false} Crashed(c: Config, s: State, id: string, f: Fate)
    requires Enabled(c, s, Crash) && FateInv(s, id, f)
    ensures FateInv(Do(c, s, Crash), id, if f == OnItsWay then Lost else f)
  {
    CrashShape(c, s);
  }

  lemma {:induction false} FateStep(c: Config, s: State, a: Action, id: string, f: Fate)
    requires NoHiddenOverlap(s) && Enabled(c, s, a) && FateInv(s, id, f)
    requires a.Write? ==> s.lanes[a.l].phase.todo[a.id].docId == a.id
    ensures FateInv(Do(c, s, a), id, Next(c, s, a, id, f))
  {
    if a.Crash? {
      Crashed(c, s, id, f);
    } else if a.Fail? {
      GaveUp(c, s, a.l, id, f);
    } else if (a.Write? || a.Vector?) && a.id == id {
      OwnStep(c, s, a, id, f);
    } else {
      ForeignStep(c, s, a, id);
      UntouchedFate(s, Do(c, s, a), id, f);
    }
  }

  lemma {:induction false} ForeignStep(c: Config, s: State, a: Action, id: string)
    requires Enabled(c, s, a) && !a.Crash? && !a.Fail? && !((a.Write? || a.Vector?) && a.id == id)
    requires a.Write? ==> s.lanes[a.l].phase.todo[a.id].docId == a.id
    ensures Untouched(s, Do(c, s, a), id)
  {
    if a.Write? || a.Vector? {
      OtherDocument(c, s, a, id);
    } else {
      QuietAction(c, s, a, id);
    }
  }

  lemma {:induction false} OwnStep(c: Config, s: State, a: Action, id: string, f: Fate)
    requires NoHiddenOverlap(s) && Enabled(c, s, a) && FateInv(s, id, f) && (a.Write? || a.Vector?) && a.id == id
    requires a.Write? ==> s.lanes[a.l].phase.todo[id].docId == id
    ensures FateInv(Do(c, s, a), id, Next(c, s, a, id, f))
  {
    if a.Vector? {
      VectorWritten(c, s, a.l, id, f);
    } else if Takes(c, s, a, id) {
      TakenWrite(c, s, a.l, id);
    } else {
      RefusedWrite(c, s, a.l, id);
      UntouchedFate(s, Do(c, s, a), id, f);
    }
  }

  lemma {:induction false} WriteKeyed(c: Config, s: State, l: nat, id: string)
    requires Inv(c, s) && Enabled(c, s, Write(l, id))
    ensures s.lanes[l].phase.todo[id].docId == id
  {
    assert LaneInv(c.logs[l], s.lanes[l], s.os);
    NewestWellKeyed(s.lanes[l].batch);
  }

  lemma {:induction false} FateRun(c: Config, s: State, acts: seq<Action>, t: State, id: string, f: Fate)
    requires Inv(c, s) && FateInv(s, id, f) && Reaches(c, s, acts, t)
    ensures FateInv(t, id, FateOf(c, s, acts, t, id, f))
    decreases |acts|
  {
    if acts != [] {
      if acts[0].Write? {
        WriteKeyed(c, s, acts[0].l, acts[0].id);
      }
      FateStep(c, s, acts[0], id, f);
      StepInv(c, s, acts[0]);
      FateRun(c, Do(c, s, acts[0]), acts[1..], t, id, Next(c, s, acts[0], id, f));
    }
  }

  ghost predicate SameIn(s: State, id: string) {
    id in s.os && id in s.vec && s.vec[id].version == s.os[id].version
  }

  /** Every run, exactly: the document is stored as soon as an event of it was taken; unless its last
    * event was taken while an earlier one was still on its way, the stores agree on it if and only
    * if the vector of that last event was written. */
  lemma {:induction false} FateDecides(c: Config, acts: seq<Action>, t: State, id: string)
    requires Reaches(c, Init(c), acts, t)
    ensures var f := FateOf(c, Init(c), acts, t, id, Untaken);
            && (f == Untaken <==> id !in t.os)
            && (f != Tangled ==> (SameIn(t, id) <==> f == Landed))
            && (f == Landed ==> (Searchable(t.os, id) <==> Searchable(t.vec, id)))
  {
    InitInv(c);
    FateRun(c, Init(c), acts, t, id, Untaken);
    StoreAgreement(c, t, id);
  }

  /** Complete runs, exactly: unless tangled, a stored document ends up alike in both stores if and
    * only if no failure and no crash hit its last event between them. */
  lemma {:induction false} CompleteRunsAgree(c: Config, acts: seq<Action>, t: State, id: string)
    requires Reaches(c, Init(c), acts, t) && Quiescent(c, t) && id in t.os
    ensures var f := FateOf(c, Init(c), acts, t, id, Untaken);
            f != Tangled ==> (SameIn(t, id) <==> f != Lost)
  {
    InitInv(c);
    FateRun(c, Init(c), acts, t, id, Untaken);
    StoreAgreement(c, t, id);
    forall m | 0 <= m < |t.lanes| ensures !Between(t, m, id) {
      assert Drained(c, t, m);
    }
  }

  /** A document whose events nothing ever hit, and no two of which were on their way at once, is
    * never lost or tangled. */
  lemma {:induction false} UnhitRuns(c: Config, s: State, acts: seq<Action>, t: State, id: string, f: Fate)
    requires Reaches(c, s, acts, t) && Unhit(c, s, acts, t, id) && f != Lost && f != Tangled
    ensures var g := FateOf(c, s, acts, t, id, f); g != Lost && g != Tangled
    decreases |acts|
  {
    if acts != [] {
      UnhitRuns(c, Do(c, s, acts[0]), acts[1..], t, id, Next(c, s, acts[0], id, f));
    }
  }

  /** No action of the run hits a write of the document, or takes one while another is on its way. */
  ghost predicate Unhit(c: Config, s: State, acts: seq<Action>, t: State, id: string)
    requires Reaches(c, s, acts, t)
    decreases |acts|
  {
    acts == [] ||
    (&& !Hits(c, s, acts[0], id)
     && (Takes(c, s, acts[0], id) ==> !OthersPending(s, acts[0].l, id))
     && Unhit(c, Do(c, s, acts[0]), acts[1..], t, id))
  }
}
