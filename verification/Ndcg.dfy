/** The ranking metric of eval/eval.py. The discount 1 / log2(i + 2) is any positive, strictly
  * decreasing one. */
module Ndcg {
  import opened Sorting

  ghost predicate Discount(d: nat -> real) {
    (forall i :: d(i) > 0.0) && (forall i, j :: i < j ==> d(i) > d(j))
  }

  function Dcg(gains: seq<int>, d: nat -> real): real {
    if gains == [] then 0.0
    else
      var last := |gains| - 1;
      Dcg(gains[..last], d) + gains[last] as real * d(last)
  }

  /** Python's s[:k], where a negative k counts from the end. */
  function Front<T>(s: seq<T>, k: int): seq<T> {
    if k >= |s| then s
    else if k >= 0 then s[..k]
    else if k > -|s| then s[..|s| + k]
    else []
  }

  function Gains(ids: seq<string>, relevant: set<string>): seq<int> {
    seq(|ids|, i requires 0 <= i < |ids| => if ids[i] in relevant then 1 else 0)
  }

  predicate Larger(a: int, b: int) {
    a > b
  }

  function Ndcg(ranked: seq<string>, relevant: set<string>, k: int, d: nat -> real): real {
    var gains := Gains(Front(ranked, k), relevant);
    Ratio(Dcg(gains, d), Dcg(Sort(gains, Larger), d))
  }

  function Ratio(dcg: real, idcg: real): real {
    if idcg > 0.0 then dcg / idcg else 0.0
  }

  // ---- the rearrangement inequality for 0/1 gains ----

  ghost predicate Binary(g: seq<int>) {
    forall i :: 0 <= i < |g| ==> g[i] == 0 || g[i] == 1
  }

  ghost predicate HitsFirst(g: seq<int>) {
    forall i, j :: 0 <= i < j < |g| && g[j] == 1 ==> g[i] == 1
  }

  function Hits(g: seq<int>): (n: nat)
    ensures n <= |g|
  {
    if g == [] then 0 else Hits(g[..|g| - 1]) + if g[|g| - 1] == 1 then 1 else 0
  }

  /** The best that `n` hits can score. */
  function Best(n: nat, d: nat -> real): real {
    if n == 0 then 0.0 else Best(n - 1, d) + d(n - 1)
  }

  lemma {:induction false} AllHits(g: seq<int>)
    ensures Hits(g) == |g| <==> forall i :: 0 <= i < |g| ==> g[i] == 1
  {
    if g != [] {
      var rest := g[..|g| - 1];
      AllHits(rest);
      assert forall i :: 0 <= i < |rest| ==> rest[i] == g[i];
    }
  }

  lemma {:induction false} HitsFirstLast(g: seq<int>)
    requires g != [] && Binary(g)
    ensures HitsFirst(g) <==>
            HitsFirst(g[..|g| - 1]) && (g[|g| - 1] == 1 ==> Hits(g[..|g| - 1]) == |g| - 1)
  {
    var rest := g[..|g| - 1];
    AllHits(rest);
    assert forall i :: 0 <= i < |rest| ==> rest[i] == g[i];
  }

  /** The discounts at the hits. */
  function Earned(g: seq<int>, d: nat -> real): real {
    if g == [] then 0.0 else Earned(g[..|g| - 1], d) + if g[|g| - 1] == 1 then d(|g| - 1) else 0.0
  }

  lemma {:induction false} DcgEarned(g: seq<int>, d: nat -> real)
    requires Binary(g)
    ensures Dcg(g, d) == Earned(g, d)
  {
    if g != [] {
      DcgEarned(g[..|g| - 1], d);
    }
  }

  lemma {:induction false} Earlier(d: nat -> real, i: nat, j: nat)
    requires Discount(d) && i <= j
    ensures d(i) >= d(j) > 0.0 && (d(i) == d(j) <==> i == j)
  {
    assert i < j ==> d(i) > d(j);
  }

  /** One more hit at `last` adds the next best discount exactly when there were no misses. */
  lemma {:induction false} BestStep(h: nat, last: nat, d: nat -> real, x: real)
    requires Discount(d) && h <= last && x <= Best(h, d)
    ensures 0.0 < d(last) && x + d(last) <= Best(h + 1, d)
    ensures x + d(last) == Best(h + 1, d) <==> x == Best(h, d) && h == last
  {
    Earlier(d, h, last);
  }

  lemma {:induction false} EarnedBest(g: seq<int>, d: nat -> real)
    requires Discount(d) && Binary(g)
    ensures 0.0 <= Earned(g, d) <= Best(Hits(g), d)
    ensures Earned(g, d) == Best(Hits(g), d) <==> HitsFirst(g)
  {
    if g != [] {
      EarnedBest(g[..|g| - 1], d);
      HitsFirstLast(g);
      EarnedLast(g, d);
    }
  }

  lemma {:induction false} EarnedLast(g: seq<int>, d: nat -> real)
    requires Discount(d) && g != [] && 0.0 <= Earned(g[..|g| - 1], d) <= Best(Hits(g[..|g| - 1]), d)
    ensures 0.0 <= Earned(g, d) <= Best(Hits(g), d)
    ensures var h, rest := Hits(g[..|g| - 1]), g[..|g| - 1];
            Earned(g, d) == Best(Hits(g), d) <==> Earned(rest, d) == Best(h, d) && (g[|g| - 1] == 1 ==> h == |g| - 1)
  {
    BestStep(Hits(g[..|g| - 1]), |g| - 1, d, Earned(g[..|g| - 1], d));
  }

  /** No arrangement of the hits beats the best, and only the one with the hits first reaches it. */
  lemma {:induction false} Rearrangement(g: seq<int>, d: nat -> real)
    requires Discount(d) && Binary(g)
    ensures 0.0 <= Dcg(g, d) <= Best(Hits(g), d)
    ensures Dcg(g, d) == Best(Hits(g), d) <==> HitsFirst(g)
  {
    DcgEarned(g, d);
    EarnedBest(g, d);
  }

  lemma {:induction false} BestPositive(n: nat, d: nat -> real)
    requires Discount(d)
    ensures Best(n, d) >= 0.0 && (Best(n, d) > 0.0 <==> n > 0)
  {
    if n > 0 {
      BestPositive(n - 1, d);
      assert d(n - 1) > 0.0;
    }
  }

  lemma {:induction false} HitsCount(g: seq<int>)
    ensures Hits(g) == multiset(g)[1]
  {
    if g != [] {
      var last := |g| - 1;
      HitsCount(g[..last]);
      assert g == g[..last] + [g[last]];
    }
  }

  lemma {:induction false} IdealGains(g: seq<int>)
    requires Binary(g)
    ensures Binary(Sort(g, Larger)) && HitsFirst(Sort(g, Larger)) && Hits(Sort(g, Larger)) == Hits(g)
  {
    var s := Sort(g, Larger);
    SortElements(g, Larger);
    SortSorted(g, Larger);
    SameMembers(s, g);
    HitsCount(s);
    HitsCount(g);
    forall i | 0 <= i < |s| ensures s[i] == 0 || s[i] == 1 {
      assert s[i] in g;
    }
    forall i, j | 0 <= i < j < |s| && s[j] == 1 ensures s[i] == 1 {
      assert !Larger(s[j], s[i]);
    }
  }

  lemma {:induction false} SomeHit(g: seq<int>)
    ensures Hits(g) > 0 <==> exists i :: 0 <= i < |g| && g[i] == 1
  {
    if g != [] {
      var rest := g[..|g| - 1];
      SomeHit(rest);
      assert forall i :: 0 <= i < |rest| ==> rest[i] == g[i];
    }
  }

  lemma {:induction false} Quotient(a: real, b: real)
    requires 0.0 <= a <= b && b > 0.0
    ensures 0.0 <= a / b <= 1.0 && (a / b == 1.0 <==> a == b)
  {
    var q := a / b;
    assert q * b == a;
    assert (1.0 - q) * b == b - a;
  }

  /** Some id in the top k is relevant, and none of the ids ahead of a relevant one is not. */
  ghost predicate Perfect(top: seq<string>, relevant: set<string>) {
    && (exists i :: 0 <= i < |top| && top[i] in relevant)
    && (forall i, j :: 0 <= i < j < |top| && top[j] in relevant ==> top[i] in relevant)
  }

  lemma {:induction false} PerfectGains(top: seq<string>, relevant: set<string>)
    ensures Perfect(top, relevant) <==> Hits(Gains(top, relevant)) > 0 && HitsFirst(Gains(top, relevant))
  {
    var g := Gains(top, relevant);
    SomeHit(g);
    assert forall i :: 0 <= i < |g| ==> (g[i] == 1 <==> top[i] in relevant);
  }

  /** The metric's range, and the rankings it gives full marks. */
  lemma {:induction false} NdcgRange(ranked: seq<string>, relevant: set<string>, k: int, d: nat -> real)
    requires Discount(d)
    ensures 0.0 <= Ndcg(ranked, relevant, k, d) <= 1.0
    ensures Ndcg(ranked, relevant, k, d) == 1.0 <==> Perfect(Front(ranked, k), relevant)
  {
    var g := Gains(Front(ranked, k), relevant);
    var ideal := Sort(g, Larger);
    IdealGains(g);
    Rearrangement(g, d);
    Rearrangement(ideal, d);
    BestPositive(Hits(g), d);
    PerfectGains(Front(ranked, k), relevant);
    if Hits(g) > 0 {
      Quotient(Dcg(g, d), Dcg(ideal, d));
    }
  }

  // ---- a better ranking scores better ----

  function Swapped(s: seq<string>, i: nat, j: nat): seq<string>
    requires i < |s| && j < |s|
  {
    s[i := s[j]][j := s[i]]
  }

  lemma {:induction false} DcgUpdate(g: seq<int>, at: nat, v: int, d: nat -> real)
    requires at < |g|
    ensures Dcg(g[at := v], d) == Dcg(g, d) + (v - g[at]) as real * d(at)
  {
    var last := |g| - 1;
    if at == last {
      assert g[at := v][..last] == g[..last];
      assert (v - g[at]) as real * d(at) == v as real * d(at) - g[at] as real * d(at);
    } else {
      DcgUpdate(g[..last], at, v, d);
      assert g[at := v][..last] == g[..last][at := v];
    }
  }

  lemma {:induction false} SortAlike(a: seq<int>, b: seq<int>)
    requires Binary(a) && Binary(b) && Hits(a) == Hits(b) && |a| == |b|
    ensures forall d :: Discount(d) ==> Dcg(Sort(a, Larger), d) == Dcg(Sort(b, Larger), d)
  {
    IdealGains(a);
    IdealGains(b);
    forall d | Discount(d) ensures Dcg(Sort(a, Larger), d) == Dcg(Sort(b, Larger), d) {
      Rearrangement(Sort(a, Larger), d);
      Rearrangement(Sort(b, Larger), d);
    }
  }

  /** Exchanging a miss with a hit below it, both in the top k, strictly raises the metric. */
  lemma {:induction false} PromotionPays(ranked: seq<string>, relevant: set<string>, k: int, d: nat -> real, i: nat,
                                         j: nat)
    requires Discount(d) && i < j < |Front(ranked, k)| && ranked[i] !in relevant && ranked[j] in relevant
    ensures Ndcg(Swapped(ranked, i, j), relevant, k, d) > Ndcg(ranked, relevant, k, d)
  {
    var top := Front(ranked, k);
    var g := Gains(top, relevant);
    var g' := Gains(Front(Swapped(ranked, i, j), k), relevant);
    SwappedGains(ranked, relevant, k, i, j);
    SwapRaises(g, i, j, d);
    SwapHits(g, i, j);
    SortAlike(g, g');
    IdealGains(g);
    Rearrangement(Sort(g, Larger), d);
    SomeHit(g);
    assert g[j] == 1;
    BestPositive(Hits(g), d);
    LargerQuotient(Dcg(g, d), Dcg(g', d), Dcg(Sort(g, Larger), d));
  }

  lemma {:induction false} SwappedGains(ranked: seq<string>, relevant: set<string>, k: int, i: nat, j: nat)
    requires i < j < |Front(ranked, k)| && ranked[i] !in relevant && ranked[j] in relevant
    ensures var g := Gains(Front(ranked, k), relevant);
            g[i] == 0 && g[j] == 1 && Gains(Front(Swapped(ranked, i, j), k), relevant) == g[i := 1][j := 0]
  {
  }

  lemma {:induction false} SwapRaises(g: seq<int>, i: nat, j: nat, d: nat -> real)
    requires Discount(d) && i < j < |g| && g[i] == 0 && g[j] == 1
    ensures Dcg(g[i := 1][j := 0], d) > Dcg(g, d)
  {
    DcgUpdate(g, i, 1, d);
    DcgUpdate(g[i := 1], j, 0, d);
    Earlier(d, i, j);
  }

  lemma {:induction false} SwapHits(g: seq<int>, i: nat, j: nat)
    requires i < j < |g| && g[i] == 0 && g[j] == 1
    ensures Hits(g[i := 1][j := 0]) == Hits(g)
  {
    HitsCount(g);
    HitsCount(g[i := 1][j := 0]);
  }

  lemma {:induction false} LargerQuotient(a: real, b: real, c: real)
    requires a < b && c > 0.0
    ensures a / c < b / c
  {
  }

  // ---- what the metric is ----

  /** The discounts at the given places. */
  function Total(at: seq<nat>, d: nat -> real): real {
    if at == [] then 0.0 else d(at[0]) + Total(at[1..], d)
  }

  lemma {:induction false} TotalMore(at: seq<nat>, n: nat, d: nat -> real)
    ensures Total(at + [n], d) == Total(at, d) + d(n)
  {
    if at == [] {
      assert [n][1..] == [];
    } else {
      TotalMore(at[1..], n, d);
      assert (at + [n])[1..] == at[1..] + [n];
    }
  }

  /** The first `n` places. */
  function Leading(n: nat): (r: seq<nat>)
    ensures |r| == n && forall i :: 0 <= i < n ==> r[i] == i
  {
    seq(n, i => i)
  }

  lemma {:induction false} BestTotal(n: nat, d: nat -> real)
    ensures Best(n, d) == Total(Leading(n), d)
  {
    if n > 0 {
      BestTotal(n - 1, d);
      TotalMore(Leading(n - 1), n - 1, d);
      assert Leading(n) == Leading(n - 1) + [n - 1];
    }
  }

  /** `at` lists the places of the relevant ids, in order. */
  ghost predicate HitPlaces(top: seq<string>, relevant: set<string>, at: seq<nat>) {
    && (forall i :: 0 <= i < |at| ==> at[i] < |top|)
    && (forall i, j :: 0 <= i < j < |at| ==> at[i] < at[j])
    && forall p :: 0 <= p < |top| ==> (p in at <==> top[p] in relevant)
  }

  lemma {:induction false} EarnedAt(top: seq<string>, relevant: set<string>, d: nat -> real) returns (at: seq<nat>)
    ensures HitPlaces(top, relevant, at) && |at| == Hits(Gains(top, relevant))
    ensures Earned(Gains(top, relevant), d) == Total(at, d)
  {
    if top == [] {
      at := [];
    } else {
      var last := |top| - 1;
      at := EarnedAt(top[..last], relevant, d);
      assert forall p :: 0 <= p < last ==> top[..last][p] == top[p];
      assert last !in at;
      assert Gains(top, relevant)[..last] == Gains(top[..last], relevant);
      if top[last] in relevant {
        TotalMore(at, last, d);
        at := at + [last];
      }
    }
  }

  /** Python's slice: the first k places, or all but the last -k. */
  predicate TopOf(ranked: seq<string>, k: int, top: seq<string>) {
    && |top| <= |ranked| && top == ranked[..|top|]
    && (k >= 0 ==> |top| <= k && (|top| == k || |top| == |ranked|))
    && (k < 0 ==> (|top| == |ranked| + k || (top == [] && |ranked| + k < 0)))
  }

  lemma {:induction false} FrontIsTop<T>(s: seq<T>, k: int)
    ensures |Front(s, k)| <= |s| && Front(s, k) == s[..|Front(s, k)|]
    ensures k >= 0 ==> |Front(s, k)| == k || (|Front(s, k)| == |s| && |s| <= k)
    ensures k < 0 ==> |Front(s, k)| == |s| + k || (Front(s, k) == [] && |s| + k < 0)
  {
  }

  lemma {:induction false} IdealTotal(g: seq<int>, d: nat -> real)
    requires Discount(d) && Binary(g)
    ensures Dcg(Sort(g, Larger), d) == Total(Leading(Hits(g)), d)
    ensures Total(Leading(Hits(g)), d) >= 0.0 && (Total(Leading(Hits(g)), d) > 0.0 <==> Hits(g) > 0)
  {
    IdealGains(g);
    Rearrangement(Sort(g, Larger), d);
    BestTotal(Hits(g), d);
    BestPositive(Hits(g), d);
  }

  lemma {:induction false} RatioTimes(a: real, b: real)
    requires b >= 0.0 && (b == 0.0 ==> a == 0.0)
    ensures Ratio(a, b) * b == a
  {
    if b > 0.0 {
      TimesBack(a, b);
    }
  }

  /** `score` times what the first `n` places are worth is `total`, and 0 where `n` is. */
  ghost predicate Gives(score: real, n: nat, total: real, d: nat -> real) {
    score * Total(Leading(n), d) == total && (n == 0 ==> score == 0.0)
  }

  lemma {:induction false} RatioGives(n: nat, total: real, ideal: real, d: nat -> real)
    requires ideal == Total(Leading(n), d) && 0.0 <= total <= ideal && (ideal > 0.0 <==> n > 0)
    ensures Gives(Ratio(total, ideal), n, total, d)
  {
    RatioTimes(total, ideal);
  }

  lemma {:induction false} GainsTimes(g: seq<int>, d: nat -> real)
    requires Discount(d) && Binary(g)
    ensures Gives(Ratio(Dcg(g, d), Dcg(Sort(g, Larger), d)), Hits(g), Earned(g, d), d)
  {
    DcgEarned(g, d);
    IdealTotal(g, d);
    EarnedBest(g, d);
    BestTotal(Hits(g), d);
    RatioGives(Hits(g), Earned(g, d), Dcg(Sort(g, Larger), d), d);
  }

  /** As a share of what as many leading places are worth, `score` is what the places of the relevant ids
    * are worth. */
  ghost predicate Scores(top: seq<string>, relevant: set<string>, d: nat -> real, score: real) {
    exists at :: HitPlaces(top, relevant, at) && Gives(score, |at|, Total(at, d), d)
  }

  lemma {:induction false} GainsScore(top: seq<string>, relevant: set<string>, d: nat -> real)
    requires Discount(d)
    ensures Scores(top, relevant, d,
                   Ratio(Dcg(Gains(top, relevant), d), Dcg(Sort(Gains(top, relevant), Larger), d)))
  {
    var at := EarnedAt(top, relevant, d);
    GainsTimes(Gains(top, relevant), d);
  }

  /** The metric is the share of the ids in the top k, as Python slices it. */
  lemma {:induction false} NdcgExactly(ranked: seq<string>, relevant: set<string>, k: int, d: nat -> real)
    returns (top: seq<string>)
    requires Discount(d)
    ensures TopOf(ranked, k, top) && Scores(top, relevant, d, Ndcg(ranked, relevant, k, d))
  {
    top := Front(ranked, k);
    FrontIsTop(ranked, k);
    GainsScore(top, relevant, d);
  }

  lemma {:induction false} TimesBack(a: real, b: real)
    requires b > 0.0
    ensures a / b * b == a
  {
  }
}
