/** The reply of the rerank server turned into scores and an order (internal/mlclient/tei.go). */
module Rerank {
  import opened Sets
  import opened Sorting

  datatype Hit = Hit(index: int, score: real)

  predicate Higher(a: Hit, b: Hit) {
    a.score > b.score
  }

  predicate InRange(h: Hit, n: nat) {
    0 <= h.index < n
  }

  /** The in-range indexes of the sorted reply. */
  function Kept(hits: seq<Hit>, n: nat): seq<int> {
    if hits == [] then []
    else
      var last := |hits| - 1;
      Kept(hits[..last], n) + if InRange(hits[last], n) then [hits[last].index] else []
  }

  function Order(res: seq<Hit>, n: nat): seq<int> {
    Kept(Sort(res, Higher), n)
  }

  /** `scores[i]` after writing the hits one by one over zeroes. */
  function Written(hits: seq<Hit>, i: int): real {
    if hits == [] then 0.0
    else if hits[|hits| - 1].index == i then hits[|hits| - 1].score
    else Written(hits[..|hits| - 1], i)
  }

  method Rerank(docs: nat, res: seq<Hit>) returns (scores: seq<real>, order: seq<int>)
    ensures order == Order(res, docs)
    ensures |scores| == docs && forall i :: 0 <= i < docs ==> scores[i] == Written(Sort(res, Higher), i)
  {
    var sorted := Sort(res, Higher);
    scores := seq(docs, i => 0.0);
    order := [];
    for n := 0 to |sorted|
      invariant order == Kept(sorted[..n], docs)
      invariant |scores| == docs && forall i :: 0 <= i < docs ==> scores[i] == Written(sorted[..n], i)
    {
      assert sorted[..n + 1][..n] == sorted[..n];
      var r := sorted[n];
      if r.index >= 0 && r.index < |scores| {
        scores := scores[r.index := r.score];
        order := order + [r.index];
      }
    }
    assert sorted[..|sorted|] == sorted;
  }

  // ---- how often an index is named ----

  function Named(hits: seq<Hit>, i: int): nat {
    if hits == [] then 0 else (if hits[0].index == i then 1 else 0) + Named(hits[1..], i)
  }

  lemma {:induction false} NamedInsert(x: Hit, s: seq<Hit>, i: int)
    ensures Named(Insert(x, s, Higher), i) == Named(s, i) + if x.index == i then 1 else 0
  {
    if s != [] && Higher(s[0], x) {
      NamedInsert(x, s[1..], i);
    }
  }

  lemma {:induction false} NamedSort(s: seq<Hit>, i: int)
    ensures Named(Sort(s, Higher), i) == Named(s, i)
  {
    if s != [] {
      NamedSort(s[1..], i);
      NamedInsert(s[0], Sort(s[1..], Higher), i);
    }
  }

  lemma {:induction false} NamedLast(s: seq<Hit>, i: int)
    requires s != []
    ensures Named(s, i) == Named(s[..|s| - 1], i) + if s[|s| - 1].index == i then 1 else 0
  {
    if |s| > 1 {
      NamedLast(s[1..], i);
      assert s[1..][..|s| - 2] == s[..|s| - 1][1..];
    }
  }

  lemma {:induction false} KeptCount(hits: seq<Hit>, n: nat, i: int)
    ensures multiset(Kept(hits, n))[i] == if 0 <= i < n then Named(hits, i) else 0
  {
    if hits != [] {
      KeptCount(hits[..|hits| - 1], n, i);
      NamedLast(hits, i);
    }
  }

  /** Every in-range index of the reply is in the order as often as the reply names it. */
  lemma {:induction false} OrderCount(res: seq<Hit>, n: nat, i: int)
    ensures multiset(Order(res, n))[i] == if 0 <= i < n then Named(res, i) else 0
  {
    KeptCount(Sort(res, Higher), n, i);
    NamedSort(res, i);
  }

  lemma {:induction false} OrderInRange(res: seq<Hit>, n: nat, k: nat)
    requires k < |Order(res, n)|
    ensures 0 <= Order(res, n)[k] < n
  {
    var i := Order(res, n)[k];
    assert i in multiset(Order(res, n));
    OrderCount(res, n, i);
  }

  ghost predicate RepeatsNone(res: seq<Hit>, n: nat) {
    forall i :: 0 <= i < n ==> Named(res, i) <= 1
  }

  lemma {:induction false} TwiceCounts(s: seq<int>, i: nat, j: nat)
    requires i < j < |s| && s[i] == s[j]
    ensures multiset(s)[s[i]] >= 2
  {
    assert s == s[..i] + [s[i]] + s[i + 1..j] + [s[j]] + s[j + 1..];
  }

  lemma {:induction false} OrderDistinct(res: seq<Hit>, n: nat)
    ensures Distinct(Order(res, n)) <==> RepeatsNone(res, n)
  {
    var order := Order(res, n);
    if RepeatsNone(res, n) {
      forall i, j | 0 <= i < j < |order| ensures order[i] != order[j] {
        OrderCount(res, n, order[i]);
        if order[i] == order[j] {
          TwiceCounts(order, i, j);
        }
      }
    }
    if Distinct(order) {
      forall i | 0 <= i < n ensures Named(res, i) <= 1 {
        OrderCount(res, n, i);
        DistinctOnce(order, i);
      }
    }
  }

  // ---- pigeonhole ----

  function Range(n: nat): (s: set<int>)
    ensures |s| == n && forall i :: i in s <==> 0 <= i < n
  {
    if n == 0 then {} else Range(n - 1) + {n - 1}
  }

  function Elements(s: seq<int>): (e: set<int>)
    ensures forall x :: x in e <==> x in s
  {
    if s == [] then {}
    else
      assert s == s[..|s| - 1] + [s[|s| - 1]];
      Elements(s[..|s| - 1]) + {s[|s| - 1]}
  }

  lemma {:induction false} DistinctFront(s: seq<int>)
    requires s != []
    ensures Distinct(s) <==> Distinct(s[..|s| - 1]) && s[|s| - 1] !in s[..|s| - 1]
  {
    var front, x := s[..|s| - 1], s[|s| - 1];
    if Distinct(front) && x !in front {
      forall i, j | 0 <= i < j < |s| ensures s[i] != s[j] {
        assert front[i] == s[i] && (j < |front| ==> front[j] == s[j]);
      }
    }
    if Distinct(s) {
      assert forall i :: 0 <= i < |front| ==> front[i] == s[i];
    }
  }

  lemma {:induction false} Cardinality(s: seq<int>)
    ensures |Elements(s)| <= |s| && (|Elements(s)| == |s| <==> Distinct(s))
  {
    if s != [] {
      var front, x := s[..|s| - 1], s[|s| - 1];
      Cardinality(front);
      DistinctFront(s);
      if x in front {
        assert Elements(s) == Elements(front);
      }
    }
  }

  lemma {:induction false} FullSubset(a: set<int>, b: set<int>)
    requires a <= b
    ensures |a| <= |b| && (|a| == |b| <==> a == b)
  {
    if b != {} {
      ghost var x := AnyOf(b);
      FullSubset(a - {x}, b - {x});
      assert b == (b - {x}) + {x};
      if x in a {
        assert a == (a - {x}) + {x};
      } else {
        assert a - {x} == a;
      }
    }
  }

  ghost predicate Permutation(order: seq<int>, n: nat) {
    |order| == n && Distinct(order) && forall i :: i in order <==> 0 <= i < n
  }

  /** Once the length check has passed, the order is a permutation exactly when the reply names no
    * in-range index twice: `n` distinct numbers below `n` are all of them. */
  lemma {:induction false} OrderPermutes(res: seq<Hit>, n: nat)
    requires |Order(res, n)| == n
    ensures Permutation(Order(res, n), n) <==> RepeatsNone(res, n)
  {
    var order := Order(res, n);
    OrderDistinct(res, n);
    Cardinality(order);
    forall x | x in order ensures 0 <= x < n {
      var k: nat :| k < |order| && order[k] == x;
      OrderInRange(res, n, k);
    }
    assert Elements(order) <= Range(n);
    FullSubset(Elements(order), Range(n));
  }

  // ---- the order is by descending score ----

  lemma {:induction false} HigherOrder()
    ensures StrictWeak(Higher)
  {
  }

  /** Each index of the order comes from its own hit, in the same sequence. */
  lemma {:induction false} KeptFrom(hits: seq<Hit>, n: nat, i: nat, j: nat) returns (a: nat, b: nat)
    requires i < j < |Kept(hits, n)|
    ensures a < b < |hits| && hits[a].index == Kept(hits, n)[i] && hits[b].index == Kept(hits, n)[j]
  {
    var last := |hits| - 1;
    var front := hits[..last];
    if j < |Kept(front, n)| {
      a, b := KeptFrom(front, n, i, j);
    } else {
      a := KeptSource(front, n, i);
      b := last;
    }
  }

  lemma {:induction false} KeptSource(hits: seq<Hit>, n: nat, i: nat) returns (a: nat)
    requires i < |Kept(hits, n)|
    ensures a < |hits| && hits[a].index == Kept(hits, n)[i]
  {
    var last := |hits| - 1;
    if i < |Kept(hits[..last], n)| {
      a := KeptSource(hits[..last], n, i);
    } else {
      a := last;
    }
  }

  lemma {:induction false} NamedAt(hits: seq<Hit>, a: nat)
    requires a < |hits|
    ensures Named(hits, hits[a].index) >= 1
  {
    if a > 0 {
      NamedAt(hits[1..], a - 1);
    }
  }

  /** An index named once keeps the score of its hit. */
  lemma {:induction false} WrittenOnce(hits: seq<Hit>, a: nat)
    requires a < |hits| && Named(hits, hits[a].index) <= 1
    ensures Written(hits, hits[a].index) == hits[a].score
  {
    var last := |hits| - 1;
    NamedLast(hits, hits[a].index);
    if a < last {
      assert hits[..last][a] == hits[a];
      NamedAt(hits[..last], a);
      WrittenOnce(hits[..last], a);
    }
  }

  /** The scores, read in the order, descend. */
  lemma {:induction false} OrderDescends(res: seq<Hit>, n: nat, i: nat, j: nat)
    requires RepeatsNone(res, n) && i < j < |Order(res, n)|
    ensures var s := Sort(res, Higher); Written(s, Order(res, n)[i]) >= Written(s, Order(res, n)[j])
  {
    var s, order := Sort(res, Higher), Order(res, n);
    HigherOrder();
    SortSorted(res, Higher);
    var a, b := KeptFrom(s, n, i, j);
    OrderInRange(res, n, i);
    OrderInRange(res, n, j);
    NamedSort(res, order[i]);
    NamedSort(res, order[j]);
    WrittenOnce(s, a);
    WrittenOnce(s, b);
    assert !Higher(s[b], s[a]);
  }

  // ---- the reply read as it arrived ----

  /** `at` are the places of the in-range hits, in order. */
  ghost predicate PlacesInRange(hits: seq<Hit>, n: nat, at: seq<nat>) {
    && (forall i :: 0 <= i < |at| ==> at[i] < |hits|)
    && (forall i, j :: 0 <= i < j < |at| ==> at[i] < at[j])
    && forall k :: 0 <= k < |hits| ==> (k in at <==> InRange(hits[k], n))
  }

  lemma {:induction false} KeptPlaces(hits: seq<Hit>, n: nat) returns (at: seq<nat>)
    ensures PlacesInRange(hits, n, at) && |at| == |Kept(hits, n)|
    ensures forall i :: 0 <= i < |at| ==> Kept(hits, n)[i] == hits[at[i]].index
  {
    if hits == [] {
      at := [];
    } else {
      var last := |hits| - 1;
      at := KeptPlaces(hits[..last], n);
      assert forall k :: 0 <= k < last ==> hits[..last][k] == hits[k];
      assert last !in at;
      if InRange(hits[last], n) {
        at := at + [last];
      }
    }
  }

  /** `ranks` lists the in-range hits of the reply, each once, by descending score; hits of equal score
    * stay in the order of the reply. */
  ghost predicate ByScore(res: seq<Hit>, n: nat, ranks: seq<nat>) {
    && (forall i :: 0 <= i < |ranks| ==> ranks[i] < |res|)
    && (forall k :: 0 <= k < |res| ==> (k in ranks <==> 0 <= res[k].index < n))
    && forall i, j :: 0 <= i < j < |ranks| ==>
         || res[ranks[i]].score > res[ranks[j]].score
         || (res[ranks[i]].score == res[ranks[j]].score && ranks[i] < ranks[j])
  }

  lemma {:induction false} ComposePlaces(res: seq<Hit>, n: nat, perm: seq<nat>, sorted: seq<Hit>, at: seq<nat>)
    returns (ranks: seq<nat>)
    requires Arranges(perm, |res|) && StableOrder(res, perm, Higher) && |sorted| == |res|
    requires forall i :: 0 <= i < |res| ==> sorted[i] == res[perm[i]]
    requires PlacesInRange(sorted, n, at)
    ensures ByScore(res, n, ranks) && |ranks| == |at|
    ensures forall i :: 0 <= i < |at| ==> res[ranks[i]] == sorted[at[i]]
  {
    ranks := seq(|at|, i requires 0 <= i < |at| => perm[at[i]]);
    forall k | 0 <= k < |res| ensures k in ranks <==> 0 <= res[k].index < n {
      assert k in perm;
      var m :| 0 <= m < |perm| && perm[m] == k;
      assert sorted[m] == res[k];
      if m in at {
        var i :| 0 <= i < |at| && at[i] == m;
        assert ranks[i] == k;
      }
      if k in ranks {
        var i :| 0 <= i < |ranks| && ranks[i] == k;
        assert perm[at[i]] == perm[m];
      }
    }
  }

  /** The order is that of the reply's in-range hits by score. */
  lemma {:induction false} OrderByScore(res: seq<Hit>, n: nat) returns (ranks: seq<nat>)
    ensures ByScore(res, n, ranks) && |ranks| == |Order(res, n)|
    ensures forall i :: 0 <= i < |ranks| ==> Order(res, n)[i] == res[ranks[i]].index
  {
    HigherOrder();
    var perm := SortIsStable(res, Higher);
    var at := KeptPlaces(Sort(res, Higher), n);
    ranks := ComposePlaces(res, n, perm, Sort(res, Higher), at);
  }

  lemma {:induction false} WrittenLast(hits: seq<Hit>, i: int)
    ensures (forall k :: 0 <= k < |hits| ==> hits[k].index != i) ==> Written(hits, i) == 0.0
    ensures (exists k :: 0 <= k < |hits| && hits[k].index == i) ==>
              exists k :: 0 <= k < |hits| && hits[k].index == i && hits[k].score == Written(hits, i)
                          && forall m :: k < m < |hits| ==> hits[m].index != i
  {
    if hits != [] {
      var last := |hits| - 1;
      WrittenLast(hits[..last], i);
      assert forall k :: 0 <= k < last ==> hits[..last][k] == hits[k];
    }
  }

  ghost predicate Names(hits: seq<Hit>, i: int) {
    exists k :: 0 <= k < |hits| && hits[k].index == i
  }

  /** `score` is the lowest the hits name for the `i`-th document. */
  ghost predicate Lowest(hits: seq<Hit>, i: int, score: real) {
    && (forall h :: h in hits && h.index == i ==> h.score >= score)
    && exists h :: h in hits && h.index == i && h.score == score
  }

  lemma {:induction false} LastIsLowest(s: seq<Hit>, i: int)
    requires Sorted(s, Higher) && Names(s, i)
    ensures Lowest(s, i, Written(s, i))
  {
    WrittenLast(s, i);
    var last :| 0 <= last < |s| && s[last].index == i && s[last].score == Written(s, i)
                && forall m :: last < m < |s| ==> s[m].index != i;
    assert s[last] in s;
    forall h | h in s && h.index == i ensures h.score >= Written(s, i) {
      var m :| 0 <= m < |s| && s[m] == h;
      assert m < last ==> !Higher(s[last], s[m]);
    }
  }

  /** The score given to a document is the lowest the reply names for it, and 0 if it names none. */
  lemma {:induction false} ScoreGiven(res: seq<Hit>, i: int)
    ensures Names(res, i) ==> Lowest(res, i, Written(Sort(res, Higher), i))
    ensures !Names(res, i) ==> Written(Sort(res, Higher), i) == 0.0
  {
    var s := Sort(res, Higher);
    HigherOrder();
    SortSorted(res, Higher);
    SortElements(res, Higher);
    SameMembers(s, res);
    if Names(s, i) {
      LastIsLowest(s, i);
    } else {
      WrittenLast(s, i);
    }
    if Names(res, i) {
      var k :| 0 <= k < |res| && res[k].index == i;
      assert res[k] in s;
    }
    if Names(s, i) {
      var k :| 0 <= k < |s| && s[k].index == i;
      assert s[k] in res;
    }
  }
}
