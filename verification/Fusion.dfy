/** Reciprocal rank fusion: `RRF` of internal/retrieve/fusion.go and `rrf` of eval/eval.py. */
module Fusion {
  import opened Options
  import opened Sorting

  datatype Scored = Scored(docId: string, score: real)

  // ---- what a document scores ----

  function Constant(k: int): int {
    if k <= 0 then 60 else k
  }

  function Share(k: int, rank: nat): real {
    if k + rank + 1 == 0 then 0.0 else 1.0 / (k + rank + 1) as real
  }

  function ListScore(list: seq<string>, k: int, id: string): real {
    if list == [] then 0.0
    else
      var last := |list| - 1;
      ListScore(list[..last], k, id) + if list[last] == id then Share(k, last) else 0.0
  }

  function Score(lists: seq<seq<string>>, k: int, id: string): real {
    if lists == [] then 0.0
    else Score(lists[..|lists| - 1], k, id) + ListScore(lists[|lists| - 1], k, id)
  }

  ghost predicate Appears(lists: seq<seq<string>>, id: string) {
    exists i :: 0 <= i < |lists| && id in lists[i]
  }

  /** Score descending, then id ascending. */
  predicate Before(a: Scored, b: Scored) {
    if a.score == b.score then StrLess(a.docId, b.docId) else a.score > b.score
  }

  /** What the fusion promises: all the ids, each once, with its score, in the order of `Before`. */
  ghost predicate Listing(out: seq<Scored>, lists: seq<seq<string>>, k: int) {
    && Increasing(out, Before)
    && forall e :: e in out <==> Appears(lists, e.docId) && e.score == Score(lists, k, e.docId)
  }

  // ---- the order ----

  lemma {:induction false} BeforeTotal(a: Scored, b: Scored)
    ensures Before(a, b) ==> !Before(b, a)
    ensures a != b ==> Before(a, b) || Before(b, a)
  {
    StrLessTotal(a.docId, b.docId);
  }

  lemma {:induction false} BeforeTransitive(a: Scored, b: Scored, c: Scored)
    requires Before(a, b) && Before(b, c)
    ensures Before(a, c)
  {
    if a.score == b.score == c.score {
      StrLessTransitive(a.docId, b.docId, c.docId);
    }
  }

  lemma {:induction false} BeforeOrder()
    ensures StrictWeak(Before)
  {
    forall x, y ensures Before(x, y) ==> !Before(y, x) {
      BeforeTotal(x, y);
    }
    forall x, y, z | !Before(x, y) && !Before(y, z) ensures !Before(x, z) {
      if Before(x, z) {
        BeforeTotal(x, y);
        BeforeTotal(y, z);
        if y != x && y != z {
          BeforeTransitive(z, y, x);
          BeforeTotal(x, z);
        }
      }
    }
  }

  /** There is one listing: neither the map's iteration order nor the sort's stability shows. */
  lemma {:induction false} ListingUnique(a: seq<Scored>, b: seq<Scored>, lists: seq<seq<string>>, k: int)
    requires Listing(a, lists, k) && Listing(b, lists, k)
    ensures a == b
  {
    BeforeOrder();
    IncreasingUnique(a, b, Before);
  }

  // ---- a reference ranking ----

  /** The ids in order of first appearance. */
  function Firsts(list: seq<string>): (r: seq<string>)
    ensures forall i, j :: 0 <= i < j < |r| ==> r[i] != r[j]
    ensures forall id :: id in r <==> id in list
  {
    if list == [] then []
    else
      var last := |list| - 1;
      var r := Firsts(list[..last]);
      assert list == list[..last] + [list[last]];
      if list[last] in r then r else r + [list[last]]
  }

  function Flat(lists: seq<seq<string>>): seq<string> {
    if lists == [] then [] else Flat(lists[..|lists| - 1]) + lists[|lists| - 1]
  }

  function Entries(ids: seq<string>, lists: seq<seq<string>>, k: int): seq<Scored> {
    seq(|ids|, i requires 0 <= i < |ids| => Scored(ids[i], Score(lists, k, ids[i])))
  }

  function Ranking(lists: seq<seq<string>>, k: int): seq<Scored> {
    Sort(Entries(Firsts(Flat(lists)), lists, k), Before)
  }

  function Ids(out: seq<Scored>): seq<string> {
    seq(|out|, i requires 0 <= i < |out| => out[i].docId)
  }

  lemma {:induction false} FlatMembers(lists: seq<seq<string>>, id: string)
    ensures id in Flat(lists) <==> Appears(lists, id)
  {
    if lists != [] {
      var last := |lists| - 1;
      FlatMembers(lists[..last], id);
      if Appears(lists, id) {
        var i :| 0 <= i < |lists| && id in lists[i];
        assert i < last ==> lists[..last][i] == lists[i];
      }
      if Appears(lists[..last], id) {
        var i :| 0 <= i < last && id in lists[..last][i];
        assert lists[i] == lists[..last][i];
      }
    }
  }

  /** Sorting a duplicate-free collection of entries, however it was collected. */
  lemma {:induction false} SortedEntries(s: seq<Scored>)
    requires Distinct(s)
    ensures Increasing(Sort(s, Before), Before)
    ensures forall e :: e in Sort(s, Before) <==> e in s
  {
    var t := Sort(s, Before);
    BeforeOrder();
    SortSorted(s, Before);
    SortElements(s, Before);
    SameMembers(t, s);
    forall i, j | 0 <= i < j < |t| ensures Before(t[i], t[j]) {
      StillDistinct(s, t, i, j);
      BeforeTotal(t[i], t[j]);
    }
  }

  lemma {:induction false} EntriesMembers(ids: seq<string>, lists: seq<seq<string>>, k: int, e: Scored)
    ensures e in Entries(ids, lists, k) <==> e.docId in ids && e.score == Score(lists, k, e.docId)
  {
    var s := Entries(ids, lists, k);
    if e.docId in ids && e.score == Score(lists, k, e.docId) {
      var i :| 0 <= i < |ids| && ids[i] == e.docId;
      assert s[i] == e;
    }
  }

  lemma {:induction false} RankingLists(lists: seq<seq<string>>, k: int)
    ensures Listing(Ranking(lists, k), lists, k)
  {
    var ids := Firsts(Flat(lists));
    var s := Entries(ids, lists, k);
    assert Distinct(s) by {
      forall i, j | 0 <= i < j < |s| ensures s[i] != s[j] {
        assert ids[i] != ids[j];
      }
    }
    SortedEntries(s);
    forall e ensures e in s <==> Appears(lists, e.docId) && e.score == Score(lists, k, e.docId) {
      EntriesMembers(ids, lists, k, e);
      FlatMembers(lists, e.docId);
    }
  }

  // ---- the fusion as the code computes it ----

  /** The score map after the lists in `done` and the front `part` of the next one. */
  ghost predicate Accumulated(score: map<string, real>, done: seq<seq<string>>, part: seq<string>, k: int) {
    && (forall id :: id in score <==> Appears(done, id) || id in part)
    && (forall id :: id in score ==> score[id] == Score(done, k, id) + ListScore(part, k, id))
  }

  lemma {:induction false} AbsentScores(list: seq<string>, k: int, id: string)
    requires id !in list
    ensures ListScore(list, k, id) == 0.0
  {
    if list != [] {
      AbsentScores(list[..|list| - 1], k, id);
    }
  }

  lemma {:induction false} AbsentTotal(lists: seq<seq<string>>, k: int, id: string)
    requires !Appears(lists, id)
    ensures Score(lists, k, id) == 0.0
  {
    if lists != [] {
      var last := |lists| - 1;
      assert id !in lists[last];
      AbsentScores(lists[last], k, id);
      AppearsOneMore(lists, last, id);
      assert lists[..last + 1] == lists;
      AbsentTotal(lists[..last], k, id);
    }
  }

  lemma {:induction false} NextRank(score: map<string, real>, done: seq<seq<string>>, list: seq<string>, j: nat, k: int,
                                    id: string)
    requires j < |list| && Accumulated(score, done, list[..j], k)
    ensures Score(done, k, id) + ListScore(list[..j + 1], k, id) ==
            (if id in score then score[id] else 0.0) + if id == list[j] then Share(k, j) else 0.0
  {
    assert list[..j + 1][..j] == list[..j];
    if id !in score {
      AbsentTotal(done, k, id);
      AbsentScores(list[..j], k, id);
    }
  }

  lemma {:induction false} AddRank(score: map<string, real>, done: seq<seq<string>>, list: seq<string>, j: nat, k: int)
    requires j < |list| && Accumulated(score, done, list[..j], k)
    ensures var before := if list[j] in score then score[list[j]] else 0.0;
            Accumulated(score[list[j] := before + Share(k, j)], done, list[..j + 1], k)
  {
    var after := score[list[j] := (if list[j] in score then score[list[j]] else 0.0) + Share(k, j)];
    assert list[..j + 1] == list[..j] + [list[j]];
    forall id | id in after ensures after[id] == Score(done, k, id) + ListScore(list[..j + 1], k, id) {
      NextRank(score, done, list, j, k, id);
    }
  }

  lemma {:induction false} CloseList(score: map<string, real>, lists: seq<seq<string>>, i: nat, k: int)
    requires i < |lists| && Accumulated(score, lists[..i], lists[i], k)
    ensures Accumulated(score, lists[..i + 1], [], k)
  {
    assert lists[..i + 1][..i] == lists[..i];
    forall id ensures Appears(lists[..i + 1], id) <==> Appears(lists[..i], id) || id in lists[i] {
      AppearsOneMore(lists, i, id);
    }
  }

  lemma {:induction false} AppearsOneMore(lists: seq<seq<string>>, i: nat, id: string)
    requires i < |lists|
    ensures Appears(lists[..i + 1], id) <==> Appears(lists[..i], id) || id in lists[i]
  {
    if Appears(lists[..i + 1], id) {
      var n :| 0 <= n < i + 1 && id in lists[..i + 1][n];
      assert n < i ==> lists[..i][n] == lists[n];
    }
    if Appears(lists[..i], id) {
      var n :| 0 <= n < i && id in lists[..i][n];
      assert lists[..i + 1][n] == lists[n];
    }
    if id in lists[i] {
      assert lists[..i + 1][i] == lists[i];
    }
  }

  /** The inner loop: one list's shares; `None` stands for Python's division by zero. */
  method AddList(score: map<string, real>, ghost done: seq<seq<string>>, list: seq<string>, k: int)
    returns (after: Option<map<string, real>>)
    requires Accumulated(score, done, [], k)
    ensures after.None? <==> k < 0 && |list| >= -k
    ensures after.Some? ==> Accumulated(after.value, done, list, k)
  {
    var totals, rank := score, 0;
    assert list[..0] == [];
    while rank < |list|
      invariant 0 <= rank <= |list| && Accumulated(totals, done, list[..rank], k)
      invariant k >= 0 || rank < -k
    {
      if k + rank + 1 == 0 {
        return None;
      }
      AddRank(totals, done, list, rank, k);
      var id := list[rank];
      totals := totals[id := (if id in totals then totals[id] else 0.0) + 1.0 / (k + rank + 1) as real];
      rank := rank + 1;
    }
    assert list[..rank] == list;
    after := Some(totals);
  }

  /** The outer loop. */
  method Accumulate(lists: seq<seq<string>>, k: int) returns (score: Option<map<string, real>>)
    ensures score.None? <==> exists i :: 0 <= i < |lists| && k < 0 && |lists[i]| >= -k
    ensures score.Some? ==> Accumulated(score.value, lists, [], k)
  {
    var totals: map<string, real> := map[];
    var i := 0;
    while i < |lists|
      invariant 0 <= i <= |lists| && Accumulated(totals, lists[..i], [], k)
      invariant forall n :: 0 <= n < i ==> k >= 0 || |lists[n]| < -k
    {
      var more := AddList(totals, lists[..i], lists[i], k);
      if more.None? {
        return None;
      }
      totals := more.value;
      CloseList(totals, lists, i, k);
      i := i + 1;
    }
    assert lists[..i] == lists;
    score := Some(totals);
  }

  /** The map's entries in whatever order the map gives them. */
  method Unload(score: map<string, real>) returns (out: seq<Scored>)
    ensures Distinct(out) && forall e :: e in out <==> e.docId in score && e.score == score[e.docId]
  {
    out := [];
    var left := score.Keys;
    while left != {}
      invariant left <= score.Keys && Distinct(out)
      invariant forall e :: e in out <==> e.docId in score && e.docId !in left && e.score == score[e.docId]
      decreases left
    {
      var id :| id in left;
      out := out + [Scored(id, score[id])];
      left := left - {id};
    }
  }

  lemma {:induction false} SortedIsRanking(score: map<string, real>, out: seq<Scored>, lists: seq<seq<string>>, k: int)
    requires Accumulated(score, lists, [], k)
    requires Distinct(out) && forall e :: e in out <==> e.docId in score && e.score == score[e.docId]
    ensures Sort(out, Before) == Ranking(lists, k)
  {
    SortedEntries(out);
    assert Listing(Sort(out, Before), lists, k);
    RankingLists(lists, k);
    ListingUnique(Sort(out, Before), Ranking(lists, k), lists, k);
  }

  method RRF(lists: seq<seq<string>>, k: int) returns (out: seq<Scored>)
    ensures out == Ranking(lists, Constant(k)) && Listing(out, lists, Constant(k))
  {
    var constant := Constant(k);
    var score := Accumulate(lists, constant);
    var entries := Unload(score.value);
    SortedIsRanking(score.value, entries, lists, constant);
    RankingLists(lists, constant);
    out := Sort(entries, Before);
  }

  /** The ordering of Python's key (-score, id). */
  predicate KeyLess(a: Scored, b: Scored) {
    -a.score < -b.score || (-a.score == -b.score && StrLess(a.docId, b.docId))
  }

  lemma {:induction false} KeyInsert(x: Scored, s: seq<Scored>)
    ensures Insert(x, s, KeyLess) == Insert(x, s, Before)
  {
    if s != [] {
      KeyInsert(x, s[1..]);
    }
  }

  lemma {:induction false} KeySort(s: seq<Scored>)
    ensures Sort(s, KeyLess) == Sort(s, Before)
  {
    if s != [] {
      KeySort(s[1..]);
      KeyInsert(s[0], Sort(s[1..], Before));
    }
  }

  /** The evaluation harness's version takes the constant as it is. */
  method Rrf(lists: seq<seq<string>>, k: int) returns (ids: Option<seq<string>>)
    ensures ids.None? <==> exists i :: 0 <= i < |lists| && k < 0 && |lists[i]| >= -k
    ensures ids.Some? ==> ids.value == Ids(Ranking(lists, k))
  {
    var score := Accumulate(lists, k);
    if score.None? {
      return None;
    }
    var entries := Unload(score.value);
    SortedIsRanking(score.value, entries, lists, k);
    KeySort(entries);
    var sorted := Sort(entries, KeyLess);
    ids := Some(seq(|sorted|, i requires 0 <= i < |sorted| => sorted[i].docId));
  }

  // ---- the order of the lists does not show either ----

  lemma {:induction false} Extract(lists: seq<seq<string>>, k: int, id: string, at: nat)
    requires at < |lists|
    ensures Score(lists, k, id) == Score(lists[..at] + lists[at + 1..], k, id) + ListScore(lists[at], k, id)
    decreases |lists|
  {
    var last := |lists| - 1;
    var rest := lists[..at] + lists[at + 1..];
    if at == last {
      assert rest == lists[..last];
    } else {
      Extract(lists[..last], k, id, at);
      assert rest[..last - 1] == lists[..last][..at] + lists[..last][at + 1..];
      assert rest[last - 1] == lists[last];
    }
  }

  lemma {:induction false} WithoutOne<T>(s: seq<T>, at: nat)
    requires at < |s|
    ensures multiset(s[..at] + s[at + 1..]) == multiset(s) - multiset{s[at]}
  {
    assert s == s[..at] + [s[at]] + s[at + 1..];
  }

  lemma {:induction false} SameLength<T>(a: seq<T>, b: seq<T>)
    requires multiset(a) == multiset(b)
    ensures |a| == |b|
  {
    assert |multiset(a)| == |multiset(b)|;
  }

  lemma {:induction false} ScoreUnordered(a: seq<seq<string>>, b: seq<seq<string>>, k: int, id: string)
    requires multiset(a) == multiset(b)
    ensures Score(a, k, id) == Score(b, k, id)
    decreases |a|
  {
    if a == [] {
      SameLength(a, b);
    } else {
      var last := |a| - 1;
      assert a[last] in multiset(b);
      var at :| 0 <= at < |b| && b[at] == a[last];
      Extract(b, k, id, at);
      WithoutOne(a, last);
      WithoutOne(b, at);
      assert a[..last] + a[last + 1..] == a[..last];
      ScoreUnordered(a[..last], b[..at] + b[at + 1..], k, id);
    }
  }

  lemma {:induction false} AppearsUnordered(a: seq<seq<string>>, b: seq<seq<string>>, id: string)
    requires multiset(a) == multiset(b) && Appears(a, id)
    ensures Appears(b, id)
  {
    var i :| 0 <= i < |a| && id in a[i];
    SameMembers(a, b);
    assert a[i] in b;
    var j :| 0 <= j < |b| && b[j] == a[i];
  }

  /** Canonicity: permuting the lists changes nothing. */
  lemma {:induction false} RankingUnordered(a: seq<seq<string>>, b: seq<seq<string>>, k: int)
    requires multiset(a) == multiset(b)
    ensures Ranking(a, k) == Ranking(b, k)
  {
    RankingLists(a, k);
    RankingLists(b, k);
    var r := Ranking(b, k);
    forall e ensures e in r <==> Appears(a, e.docId) && e.score == Score(a, k, e.docId) {
      ScoreUnordered(a, b, k, e.docId);
      if Appears(a, e.docId) {
        AppearsUnordered(a, b, e.docId);
      }
      if Appears(b, e.docId) {
        AppearsUnordered(b, a, e.docId);
      }
    }
    assert Listing(r, a, k);
    ListingUnique(Ranking(a, k), r, a, k);
  }

  lemma {:induction false} ListingIds(out: seq<Scored>, lists: seq<seq<string>>, k: int)
    requires Listing(out, lists, k)
    ensures Distinct(Ids(out)) && forall id :: id in Ids(out) <==> Appears(lists, id)
  {
    var ids := Ids(out);
    forall i, j | 0 <= i < j < |ids| ensures ids[i] != ids[j] {
      assert out[i] in out && out[j] in out && Before(out[i], out[j]);
      BeforeTotal(out[i], out[j]);
    }
    forall id ensures id in ids <==> Appears(lists, id) {
      if id in ids {
        var i :| 0 <= i < |ids| && ids[i] == id;
        assert out[i] in out;
      }
      if Appears(lists, id) {
        var e := Scored(id, Score(lists, k, id));
        assert e in out;
        var i :| 0 <= i < |out| && out[i] == e;
        assert ids[i] == id;
      }
    }
  }

  // ---- what a score is made of ----

  lemma {:induction false} ListCounts(list: seq<string>, k: int, x: string, at: nat)
    requires k + at + 1 != 0 && at < |list| && list[at] != x
    ensures ListScore(list[at := x], k, x) == ListScore(list, k, x) + 1.0 / (k + at + 1) as real
  {
    var last := |list| - 1;
    if at == last {
      assert list[at := x][..last] == list[..last];
    } else {
      ListCounts(list[..last], k, x, at);
      assert list[at := x][..last] == list[..last][at := x];
    }
  }

  /** An id that appears nowhere scores nothing, and each place it is put at, in whichever list, adds
    * exactly the reciprocal of the constant plus its rank, the first place having rank 1. */
  lemma {:induction false} ScoreCounts(lists: seq<seq<string>>, k: int, x: string, n: nat, at: nat)
    requires k + at + 1 != 0 && n < |lists| && at < |lists[n]| && lists[n][at] != x
    ensures Score(lists[n := lists[n][at := x]], k, x) == Score(lists, k, x) + 1.0 / (k + at + 1) as real
    ensures !Appears(lists, x) ==> Score(lists, k, x) == 0.0
  {
    ScoreRaised(lists, k, x, n, at);
    if !Appears(lists, x) {
      AbsentTotal(lists, k, x);
    }
  }

  lemma {:induction false} ScoreRaised(lists: seq<seq<string>>, k: int, x: string, n: nat, at: nat)
    requires k + at + 1 != 0 && n < |lists| && at < |lists[n]| && lists[n][at] != x
    ensures Score(lists[n := lists[n][at := x]], k, x) == Score(lists, k, x) + 1.0 / (k + at + 1) as real
  {
    var last := |lists| - 1;
    var after := lists[n := lists[n][at := x]];
    if n == last {
      ListCounts(lists[n], k, x, at);
      assert after[..last] == lists[..last];
    } else {
      ScoreRaised(lists[..last], k, x, n, at);
      assert after[..last] == lists[..last][n := lists[n][at := x]];
    }
  }
}
