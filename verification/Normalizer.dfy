/** Change events become canonical documents (internal/normalizer/normalizer.go), and what that
  * means for a row from its insert to its delete. */
module Normalizer {
  import opened Options
  import opened Contract
  import opened Decimal
  import opened Protocol
  import opened Safety
  import opened Drain
  import opened Convergence

  datatype Row = Row(id: int, tenantId: int, title: string, body: string, category: string, tier: string, version: int)

  /** A decoded Debezium value; `sourceTs` and `ts` are the two commit times it may carry. */
  datatype Envelope = Envelope(before: Option<Row>, after: Option<Row>, op: string, sourceTs: int, ts: int)

  datatype Outcome = Normalized(doc: CanonicalDoc) | Skipped | Failed

  function DocIdOf(row: Row): string {
    NamespacedDocId("postgres", "documents:" + Signed(row.id))
  }

  function ClassifyTier(op: Op, row: Row): Tier {
    if op == Delete || row.tier == "urgent" then Urgent else Bulk
  }

  function BuildDoc(row: Row, op: Op, commit: int): CanonicalDoc {
    CanonicalDoc("postgres", DocIdOf(row), row.tenantId, op, ClassifyTier(op, row), row.version, commit,
                 row.title, row.body, row.category)
  }

  function CommitTs(e: Envelope, now: int): int {
    if e.sourceTs != 0 then e.sourceTs else if e.ts != 0 then e.ts else now
  }

  function FromDebezium(e: Envelope, now: int): Outcome {
    if e.op == "c" || e.op == "u" || e.op == "r" then
      if e.after.None? then Failed else Normalized(BuildDoc(e.after.value, Upsert, CommitTs(e, now)))
    else if e.op == "d" then
      if e.before.None? then Failed else Normalized(BuildDoc(e.before.value, Delete, CommitTs(e, now)))
    else if e.op == "t" || e.op == "" then Skipped
    else Failed
  }

  /** The document carries the row's columns, each under its own name. */
  predicate Carries(d: CanonicalDoc, row: Row) {
    && d.source == "postgres" && d.docId == "postgres:documents:" + Signed(row.id) && d.tenantId == row.tenantId
    && d.version == row.version && d.title == row.title && d.body == row.body && d.category == row.category
    && (d.tier == Urgent <==> d.op == Delete || row.tier == "urgent") && (d.tier == Urgent || d.tier == Bulk)
  }

  /** The commit time is the source's if it has one, else the connector's, else the present. */
  predicate Dated(d: CanonicalDoc, e: Envelope, now: int) {
    && (e.sourceTs != 0 ==> d.commitTs == e.sourceTs)
    && (e.sourceTs == 0 && e.ts != 0 ==> d.commitTs == e.ts)
    && (e.sourceTs == 0 && e.ts == 0 ==> d.commitTs == now)
  }

  lemma {:induction false} BuildDocCarries(row: Row, op: Op, e: Envelope, now: int, d: CanonicalDoc)
    ensures d == BuildDoc(row, op, CommitTs(e, now)) <==> d.op == op && Carries(d, row) && Dated(d, e, now)
  {
    assert "postgres" + ":" + ("documents:" + Signed(row.id)) == "postgres:documents:" + Signed(row.id);
  }

  /** What comes of a change event: a create, update or snapshot read is an upsert of the after-image,
    * a delete one of the before-image; a missing image or an unknown operation is an error. */
  lemma {:induction false} NormalizedExactly(e: Envelope, now: int, d: CanonicalDoc)
    ensures FromDebezium(e, now) == Normalized(d) <==>
            || (e.op in {"c", "u", "r"} && e.after.Some? && d.op == Upsert && Carries(d, e.after.value)
                && Dated(d, e, now))
            || (e.op == "d" && e.before.Some? && d.op == Delete && Carries(d, e.before.value) && Dated(d, e, now))
    ensures FromDebezium(e, now) == Skipped <==> e.op == "t" || e.op == ""
    ensures FromDebezium(e, now) == Failed <==>
            || (e.op in {"c", "u", "r"} && e.after.None?) || (e.op == "d" && e.before.None?)
            || e.op !in {"c", "u", "r", "d", "t", ""}
  {
    if e.after.Some? {
      BuildDocCarries(e.after.value, Upsert, e, now, d);
    }
    if e.before.Some? {
      BuildDocCarries(e.before.value, Delete, e, now, d);
    }
  }

  /** Rows and document ids correspond one to one. */
  lemma {:induction false} DocIdInjective(a: Row, b: Row)
    requires DocIdOf(a) == DocIdOf(b)
    ensures a.id == b.id
  {
    var prefix := "postgres" + ":" + "documents:";
    assert DocIdOf(a) == prefix + Signed(a.id) && DocIdOf(b) == prefix + Signed(b.id);
    assert (prefix + Signed(a.id))[|prefix|..] == Signed(a.id);
    assert (prefix + Signed(b.id))[|prefix|..] == Signed(b.id);
    SignedInjective(a.id, b.id);
  }

  // ---- the life of one row ----

  predicate HasText(row: Row) {
    row.title != "" || row.body != ""
  }

  /** The successive contents of a row: the trigger adds one to the version on every update. `at`
    * holds the commit times of its writes and, last, of its delete. */
  predicate RowHistory(rows: seq<Row>, at: seq<int>) {
    && rows != [] && rows[0].version >= 0
    && (forall k :: 0 <= k < |rows| ==> rows[k].id == rows[0].id)
    && (forall k :: 0 <= k < |rows| - 1 ==> rows[k + 1].version == rows[k].version + 1)
    && |at| == |rows| + 1 && forall k :: 0 <= k < |at| ==> at[k] != 0
  }

  function Write(rows: seq<Row>, k: nat, ts: int): Envelope
    requires k < |rows|
  {
    if k == 0 then Envelope(None, Some(rows[0]), "c", ts, 0)
    else Envelope(Some(rows[k - 1]), Some(rows[k]), "u", ts, 0)
  }

  function Removal(row: Row, ts: int): Envelope {
    Envelope(Some(row), None, "d", ts, 0)
  }

  function UpsertOf(rows: seq<Row>, at: seq<int>, k: nat): Record
    requires RowHistory(rows, at) && k < |rows|
  {
    Parsed(FromDebezium(Write(rows, k, at[k]), 0).doc)
  }

  function Tombstone(rows: seq<Row>, at: seq<int>): Record
    requires RowHistory(rows, at)
  {
    Parsed(FromDebezium(Removal(rows[|rows| - 1], at[|rows|]), 0).doc)
  }

  /** What the normalizer makes of the row's life: its upserts, then its delete. */
  function Events(rows: seq<Row>, at: seq<int>): seq<Record>
    requires RowHistory(rows, at)
  {
    seq(|rows| + 1, k requires 0 <= k < |rows| + 1 => if k < |rows| then UpsertOf(rows, at, k) else Tombstone(rows, at))
  }

  lemma {:induction false} VersionsClimb(rows: seq<Row>, at: seq<int>, k: nat)
    requires RowHistory(rows, at) && k < |rows|
    ensures rows[k].version == rows[0].version + k && DocIdOf(rows[k]) == DocIdOf(rows[0])
  {
    if k > 0 {
      VersionsClimb(rows, at, k - 1);
    }
  }

  /** An upsert is delivered exactly when it has text, one version above the one before. */
  lemma {:induction false} UpsertEvent(rows: seq<Row>, at: seq<int>, k: nat)
    requires RowHistory(rows, at) && k < |rows|
    ensures var r := UpsertOf(rows, at, k);
            && (Good(r) <==> HasText(rows[k]))
            && r.doc.docId == DocIdOf(rows[0]) && r.doc.op == Upsert && r.doc.version == rows[0].version + k
            && r.doc.tier == (if rows[k].tier == "urgent" then Urgent else Bulk)
  {
    VersionsClimb(rows, at, k);
  }

  /** The delete is always delivered, on the fast lane and at the version of the last write. */
  lemma {:induction false} DeleteEvent(rows: seq<Row>, at: seq<int>)
    requires RowHistory(rows, at)
    ensures var r := Tombstone(rows, at);
            && Good(r) && r.doc.docId == DocIdOf(rows[0]) && r.doc.op == Delete && r.doc.tier == Urgent
            && r.doc.version == rows[0].version + |rows| - 1
  {
    VersionsClimb(rows, at, |rows| - 1);
  }

  // ---- the topics ----

  /** The valid events of one tier, in order: what the normalizer produces to that tier's topic. */
  function Topic(events: seq<Record>, tier: Tier): seq<Record> {
    if events == [] then []
    else
      var last := events[|events| - 1];
      Topic(events[..|events| - 1], tier) + if Good(last) && last.doc.tier == tier then [last] else []
  }

  function Routed(events: seq<Record>, useGuard: bool): Config {
    Config([Topic(events, Urgent), Topic(events, Bulk)], useGuard)
  }

  /** `events[k]` is delivered, and nothing of its tier, id and version is delivered before it. */
  ghost predicate Leads(events: seq<Record>, k: nat) {
    && k < |events| && Good(events[k])
    && forall j :: 0 <= j < k && Good(events[j]) ==> !Ties(events[j].doc, events[k].doc)
  }

  predicate Ties(d: CanonicalDoc, e: CanonicalDoc) {
    d.tier == e.tier && d.docId == e.docId && d.version == e.version
  }

  lemma {:induction false} TopicHas(events: seq<Record>, tier: Tier, r: Record)
    ensures r in Topic(events, tier) <==> r in events && Good(r) && r.doc.tier == tier
  {
    if events != [] {
      TopicHas(events[..|events| - 1], tier, r);
      assert events == events[..|events| - 1] + [events[|events| - 1]];
    }
  }

  lemma {:induction false} LeadsIsFirst(events: seq<Record>, k: nat) returns (i: nat)
    requires Leads(events, k)
    ensures var d := events[k].doc; i < |Topic(events, d.tier)| && FirstAt(Topic(events, d.tier), i, d)
    decreases |events|
  {
    var front, d := events[..|events| - 1], events[k].doc;
    if k < |front| {
      assert front[k] == events[k];
      i := LeadsIsFirst(front, k);
    } else {
      i := |Topic(front, d.tier)|;
      var log := Topic(events, d.tier);
      assert log[i] == events[k];
      forall j | 0 <= j < i && Good(log[j]) && log[j].doc.docId == d.docId ensures log[j].doc.version != d.version {
        TopicHas(front, d.tier, log[j]);
        var n :| 0 <= n < |front| && front[n] == log[j];
        assert events[n] == log[j];
      }
    }
  }

  lemma {:induction false} FirstLeads(events: seq<Record>, tier: Tier, i: nat, d: CanonicalDoc) returns (k: nat)
    requires i < |Topic(events, tier)| && FirstAt(Topic(events, tier), i, d)
    ensures Leads(events, k) && events[k].doc == d
    decreases |events|
  {
    var front, log := events[..|events| - 1], Topic(events, tier);
    var before := Topic(front, tier);
    TopicHas(events, tier, log[i]);
    if i < |before| {
      assert forall j :: 0 <= j <= i ==> log[j] == before[j];
      k := FirstLeads(front, tier, i, d);
      assert forall j :: 0 <= j <= k ==> events[j] == front[j];
    } else {
      k := |front|;
      forall j | 0 <= j < k && Good(events[j]) && events[j].doc.tier == tier ensures !Ties(events[j].doc, d) {
        assert front[j] == events[j];
        TopicHas(front, tier, events[j]);
        var n :| 0 <= n < |before| && before[n] == events[j];
        assert log[n] == events[j];
      }
    }
  }

  lemma {:induction false} RoutedEvents(events: seq<Record>, useGuard: bool, d: CanonicalDoc)
    ensures HasEvent(Routed(events, useGuard), d) <==> Parsed(d) in events && Good(Parsed(d))
  {
    var c := Routed(events, useGuard);
    TopicHas(events, Urgent, Parsed(d));
    TopicHas(events, Bulk, Parsed(d));
    if HasEvent(c, d) {
      var l, i :| 0 <= l < |c.logs| && 0 <= i < |c.logs[l]| && Good(c.logs[l][i]) && c.logs[l][i].doc == d;
      assert c.logs[l][i] == Parsed(d) && Parsed(d) in c.logs[l];
      assert l == 0 || l == 1;
    }
    if Parsed(d) in events && Good(Parsed(d)) {
      var l := if d.tier == Urgent then 0 else 1;
      assert Parsed(d) in c.logs[l];
      var i :| 0 <= i < |c.logs[l]| && c.logs[l][i] == Parsed(d);
    }
  }

  lemma {:induction false} RoutedFirst(events: seq<Record>, useGuard: bool, d: CanonicalDoc)
    ensures FirstSomewhere(Routed(events, useGuard), d) <==> exists k: nat :: Leads(events, k) && events[k].doc == d
  {
    var c := Routed(events, useGuard);
    if FirstSomewhere(c, d) {
      var l, i :| 0 <= l < |c.logs| && 0 <= i < |c.logs[l]| && FirstAt(c.logs[l], i, d);
      var k := FirstLeads(events, if l == 0 then Urgent else Bulk, i, d);
    }
    if k: nat :| Leads(events, k) && events[k].doc == d {
      var i := LeadsIsFirst(events, k);
      assert FirstAt(c.logs[if d.tier == Urgent then 0 else 1], i, d);
    }
  }

  // ---- what a delete achieves ----

  lemma {:induction false} EventVersion(rows: seq<Row>, at: seq<int>, k: nat)
    requires RowHistory(rows, at) && k <= |rows|
    ensures var r := Events(rows, at)[k];
            && r.doc.docId == DocIdOf(rows[0]) && (Good(r) <==> k == |rows| || HasText(rows[k]))
            && r.doc.version == rows[0].version + (if k == |rows| then |rows| - 1 else k)
  {
    if k == |rows| {
      DeleteEvent(rows, at);
    } else {
      UpsertEvent(rows, at, k);
    }
  }

  /** No delivered event of the document is newer. */
  ghost predicate Unsurpassed(c: Config, d: CanonicalDoc) {
    forall e :: HasEvent(c, e) && e.docId == d.docId ==> e.version <= d.version
  }

  /** The last write and the delete share the highest version; nothing else reaches it. */
  lemma {:induction false} TopEvents(rows: seq<Row>, at: seq<int>, useGuard: bool, k: nat)
    requires RowHistory(rows, at) && k <= |rows| && Good(Events(rows, at)[k])
    ensures var d := Events(rows, at)[k].doc;
            Unsurpassed(Routed(Events(rows, at), useGuard), d) <==> k >= |rows| - 1
  {
    var es := Events(rows, at);
    EventVersion(rows, at, k);
    EventVersion(rows, at, |rows|);
    RoutedEvents(es, useGuard, es[|rows|].doc);
    assert es[|rows|] in es;
    forall e | HasEvent(Routed(es, useGuard), e) ensures e.version <= rows[0].version + |rows| - 1 {
      RoutedEvents(es, useGuard, e);
      var n :| 0 <= n < |es| && es[n] == Parsed(e);
      EventVersion(rows, at, n);
    }
  }

  lemma {:induction false} LastUpsertLeads(rows: seq<Row>, at: seq<int>)
    requires RowHistory(rows, at)
    ensures Leads(Events(rows, at), |rows| - 1) <==> HasText(rows[|rows| - 1])
  {
    EventVersion(rows, at, |rows| - 1);
    forall j | 0 <= j < |rows| - 1 ensures Events(rows, at)[j].doc.version != Events(rows, at)[|rows| - 1].doc.version {
      EventVersion(rows, at, j);
    }
  }

  lemma {:induction false} TombstoneLeads(rows: seq<Row>, at: seq<int>)
    requires RowHistory(rows, at)
    ensures var last := rows[|rows| - 1]; Leads(Events(rows, at), |rows|) <==> !HasText(last) || last.tier != "urgent"
  {
    var es, n := Events(rows, at), |rows|;
    DeleteEvent(rows, at);
    UpsertEvent(rows, at, n - 1);
    forall j | 0 <= j < n - 1 ensures es[j].doc.version != es[n].doc.version {
      EventVersion(rows, at, j);
    }
    assert es[n - 1] == UpsertOf(rows, at, n - 1) && es[n] == Tombstone(rows, at);
  }

  /** The winners of a row's life, for every history, tier changes and emptied rows included. */
  lemma {:induction false} RowWinners(rows: seq<Row>, at: seq<int>, useGuard: bool, d: CanonicalDoc)
    requires RowHistory(rows, at) && d.docId == DocIdOf(rows[0])
    ensures var last := rows[|rows| - 1];
            Winner(Routed(Events(rows, at), useGuard), d) <==>
            || (d == UpsertOf(rows, at, |rows| - 1).doc && HasText(last))
            || (d == Tombstone(rows, at).doc && (!HasText(last) || last.tier != "urgent"))
  {
    var es, n := Events(rows, at), |rows|;
    LastUpsertLeads(rows, at);
    TombstoneLeads(rows, at);
    assert es[n - 1] == UpsertOf(rows, at, n - 1) && es[n] == Tombstone(rows, at);
    if Winner(Routed(es, useGuard), d) {
      RoutedFirst(es, useGuard, d);
      var k: nat :| Leads(es, k) && es[k].doc == d;
      TopEvents(rows, at, useGuard, k);
    }
    if d == es[n - 1].doc && Leads(es, n - 1) {
      LeaderWins(rows, at, useGuard, n - 1);
    }
    if d == es[n].doc && Leads(es, n) {
      LeaderWins(rows, at, useGuard, n);
    }
  }

  lemma {:induction false} LeaderWins(rows: seq<Row>, at: seq<int>, useGuard: bool, k: nat)
    requires RowHistory(rows, at) && Leads(Events(rows, at), k) && k >= |rows| - 1
    ensures Winner(Routed(Events(rows, at), useGuard), Events(rows, at)[k].doc)
  {
    RoutedFirst(Events(rows, at), useGuard, Events(rows, at)[k].doc);
    TopEvents(rows, at, useGuard, k);
  }

  ghost predicate CanEnd(c: Config, id: string, searchable: bool) {
    exists s :: Reachable(c, s) && Quiescent(c, s) && Searchable(s.os, id) == searchable
  }

  /** What becomes of a deleted row, exactly: a complete run can leave it searchable if and only if
    * its last contents had text, and can leave it gone if and only if they had none or were not
    * urgent. */
  lemma {:induction false} DeleteOutcomes(rows: seq<Row>, at: seq<int>, useGuard: bool)
    requires RowHistory(rows, at)
    ensures var c, last := Routed(Events(rows, at), useGuard), rows[|rows| - 1];
            && (CanEnd(c, DocIdOf(rows[0]), true) <==> HasText(last))
            && (CanEnd(c, DocIdOf(rows[0]), false) <==> !HasText(last) || last.tier != "urgent")
  {
    var c, id, n := Routed(Events(rows, at), useGuard), DocIdOf(rows[0]), |rows|;
    UpsertEvent(rows, at, n - 1);
    DeleteEvent(rows, at);
    var up, del := UpsertOf(rows, at, n - 1).doc, Tombstone(rows, at).doc;
    RowWinners(rows, at, useGuard, up);
    RowWinners(rows, at, useGuard, del);
    assert up != del;
    if HasText(rows[n - 1]) {
      var s := WinnerIsReachable(c, up);
    }
    if !HasText(rows[n - 1]) || rows[n - 1].tier != "urgent" {
      var s := WinnerIsReachable(c, del);
    }
    forall s | Reachable(c, s) && Quiescent(c, s)
      ensures id in s.os && Winner(c, s.os[id]) && (s.os[id] == up || s.os[id] == del)
    {
      EndsAtOne(rows, at, useGuard, s);
    }
  }

  lemma {:induction false} EndsAtOne(rows: seq<Row>, at: seq<int>, useGuard: bool, s: State)
    requires RowHistory(rows, at)
    requires var c := Routed(Events(rows, at), useGuard); Reachable(c, s) && Quiescent(c, s)
    ensures var id := DocIdOf(rows[0]);
            && id in s.os && s.os[id].docId == id && Winner(Routed(Events(rows, at), useGuard), s.os[id])
            && (s.os[id] == UpsertOf(rows, at, |rows| - 1).doc || s.os[id] == Tombstone(rows, at).doc)
  {
    var es, id := Events(rows, at), DocIdOf(rows[0]);
    var c := Routed(es, useGuard);
    DeleteEvent(rows, at);
    RoutedEvents(es, useGuard, Tombstone(rows, at).doc);
    assert es[|rows|] == Tombstone(rows, at) && es[|rows|] in es;
    ConvergesToWinner(c, s, id);
    RowWinners(rows, at, useGuard, s.os[id]);
  }

  /** A row that ends urgent: in every complete run the delete is refused as a tie, and the document
    * stays searchable at its last contents. */
  lemma {:induction false} UrgentDeleteIsLost(rows: seq<Row>, at: seq<int>, useGuard: bool, s: State)
    requires RowHistory(rows, at) && HasText(rows[|rows| - 1]) && rows[|rows| - 1].tier == "urgent"
    requires var c := Routed(Events(rows, at), useGuard); Reachable(c, s) && Quiescent(c, s)
    ensures var id := DocIdOf(rows[0]);
            id in s.os && s.os[id] == UpsertOf(rows, at, |rows| - 1).doc && Searchable(s.os, id)
  {
    EndsAtOne(rows, at, useGuard, s);
    RowWinners(rows, at, useGuard, s.os[DocIdOf(rows[0])]);
    UpsertEvent(rows, at, |rows| - 1);
    DeleteEvent(rows, at);
  }

  /** A row that ends on the bulk lane: the delete overtakes on the fast lane or it does not, and
    * complete runs end both ways. */
  lemma {:induction false} BulkDeleteRaces(rows: seq<Row>, at: seq<int>, useGuard: bool)
    returns (kept: State, gone: State)
    requires RowHistory(rows, at) && HasText(rows[|rows| - 1]) && rows[|rows| - 1].tier != "urgent"
    ensures var c := Routed(Events(rows, at), useGuard);
            Reachable(c, kept) && Quiescent(c, kept) && Reachable(c, gone) && Quiescent(c, gone)
    ensures Searchable(kept.os, DocIdOf(rows[0])) && !Searchable(gone.os, DocIdOf(rows[0]))
  {
    var c, id := Routed(Events(rows, at), useGuard), DocIdOf(rows[0]);
    DeleteOutcomes(rows, at, useGuard);
    assert CanEnd(c, id, true) && CanEnd(c, id, false);
    kept :| Reachable(c, kept) && Quiescent(c, kept) && Searchable(kept.os, id) == true;
    gone :| Reachable(c, gone) && Quiescent(c, gone) && Searchable(gone.os, id) == false;
  }

  /** A delete is certain to take effect exactly when the last write was not even delivered. */
  lemma {:induction false} DeleteIsCertain(rows: seq<Row>, at: seq<int>, useGuard: bool)
    requires RowHistory(rows, at)
    ensures (forall s :: var c := Routed(Events(rows, at), useGuard);
               Reachable(c, s) && Quiescent(c, s) ==> !Searchable(s.os, DocIdOf(rows[0]))) <==>
                 !HasText(rows[|rows| - 1])
  {
    var c, id := Routed(Events(rows, at), useGuard), DocIdOf(rows[0]);
    DeleteOutcomes(rows, at, useGuard);
    if !HasText(rows[|rows| - 1]) {
      forall s | Reachable(c, s) && Quiescent(c, s) ensures !Searchable(s.os, id) {
        assert !CanEnd(c, id, true);
      }
    }
  }
}
