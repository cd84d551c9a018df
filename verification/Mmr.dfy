/** Maximal marginal relevance (internal/retrieve/fusion.go). */
module Mmr {
  import opened Cosine
  import opened Sorting

  /** What a call works with besides the candidates; `sqrt` stands for math.Sqrt. */
  datatype Setting = Setting(
    relevance: map<string, real>,
    vectors: map<string, Vector>,
    lambda: real,
    sqrt: real -> real
  )

  const FLOOR: real := -1000000000000000000.0

  function Relevance(p: Setting, id: string): real {
    if id in p.relevance then p.relevance[id] else 0.0
  }

  function VectorOf(p: Setting, id: string): Vector {
    if id in p.vectors then p.vectors[id] else []
  }

  function Max(a: real, b: real): real {
    if b > a then b else a
  }

  function MaxSim(p: Setting, id: string, selected: seq<string>): (m: real)
    requires IsRoot(p.sqrt)
  {
    if selected == [] then 0.0
    else
      var last := |selected| - 1;
      Max(MaxSim(p, id, selected[..last]), Similarity(VectorOf(p, id), VectorOf(p, selected[last]), p.sqrt))
  }

  function Weigh(weight: real, rel: real, sim: real): real {
    weight * rel - (1.0 - weight) * sim
  }

  function Marginal(p: Setting, id: string, selected: seq<string>): real
    requires IsRoot(p.sqrt)
  {
    Weigh(p.lambda, Relevance(p, id), MaxSim(p, id, selected))
  }

  function Clamp(x: real): real {
    Max(FLOOR, x)
  }

  /** The first of the candidates whose marginal relevance, cut off at the floor, is greatest. */
  ghost predicate IsBest(p: Setting, selected: seq<string>, remaining: seq<string>, at: nat)
    requires IsRoot(p.sqrt)
  {
    && at < |remaining|
    && (forall i :: 0 <= i < at ==>
          Clamp(Marginal(p, remaining[i], selected)) < Clamp(Marginal(p, remaining[at], selected)))
    && (forall i :: 0 <= i < |remaining| ==>
          Clamp(Marginal(p, remaining[i], selected)) <= Clamp(Marginal(p, remaining[at], selected)))
  }

  function Without<T>(s: seq<T>, at: nat): seq<T>
    requires at < |s|
  {
    s[..at] + s[at + 1..]
  }

  /** `selected` and `remaining` after some rounds over `candidates`, a best one taken each time. */
  ghost predicate Greedy(p: Setting, candidates: seq<string>, selected: seq<string>, remaining: seq<string>)
    requires IsRoot(p.sqrt)
    decreases |selected|
  {
    if selected == [] then remaining == candidates
    else
      var last := |selected| - 1;
      exists before, at :: Greedy(p, candidates, selected[..last], before) && IsBest(p, selected[..last], before, at)
                           && before[at] == selected[last] && remaining == Without(before, at)
  }

  function Wanted(candidates: seq<string>, topK: int): nat {
    if topK <= 0 || topK > |candidates| then |candidates| else topK
  }

  // ---- the loops ----

  method Closest(p: Setting, id: string, selected: seq<string>) returns (m: real)
    requires IsRoot(p.sqrt)
    ensures m == MaxSim(p, id, selected) && 0.0 <= m <= 1.0
  {
    m := 0.0;
    for j := 0 to |selected|
      invariant m == MaxSim(p, id, selected[..j])
    {
      assert selected[..j + 1][..j] == selected[..j];
      var sim := ComputeSimilarity(VectorOf(p, id), VectorOf(p, selected[j]), p.sqrt);
      if sim > m {
        m := sim;
      }
    }
    assert selected[..|selected|] == selected;
    MaxSimRange(p, id, selected);
  }

  method MarginalOf(p: Setting, id: string, selected: seq<string>) returns (mmr: real)
    requires IsRoot(p.sqrt)
    ensures mmr == Marginal(p, id, selected)
  {
    var rel := Relevance(p, id);
    var maxSim := Closest(p, id, selected);
    mmr := Weigh(p.lambda, rel, maxSim);
  }

  method PickBest(p: Setting, selected: seq<string>, remaining: seq<string>) returns (bestIdx: nat)
    requires IsRoot(p.sqrt) && remaining != []
    ensures IsBest(p, selected, remaining, bestIdx)
  {
    bestIdx := 0;
    var bestScore := FLOOR;
    for i := 0 to |remaining|
      invariant bestIdx < |remaining| && (i == 0 ==> bestIdx == 0 && bestScore == FLOOR)
      invariant i > 0 ==> bestIdx < i && bestScore == Clamp(Marginal(p, remaining[bestIdx], selected))
      invariant forall n :: 0 <= n < bestIdx ==> Clamp(Marginal(p, remaining[n], selected)) < bestScore
      invariant forall n :: 0 <= n < i ==> Clamp(Marginal(p, remaining[n], selected)) <= bestScore
    {
      var id := remaining[i];
      var mmr := MarginalOf(p, id, selected);
      if mmr > bestScore {
        bestScore, bestIdx := mmr, i;
      }
    }
  }

  method MMR(p: Setting, candidates: seq<string>, topK: int) returns (selected: seq<string>)
    requires IsRoot(p.sqrt)
    ensures exists remaining :: Greedy(p, candidates, selected, remaining)
    ensures |selected| == Wanted(candidates, topK) && multiset(selected) <= multiset(candidates)
  {
    var want := if topK <= 0 || topK > |candidates| then |candidates| else topK;
    selected := [];
    var remaining := candidates;
    while |selected| < want && |remaining| > 0
      invariant |selected| <= want && |selected| + |remaining| == |candidates|
      invariant Greedy(p, candidates, selected, remaining)
      decreases |remaining|
    {
      var bestIdx := PickBest(p, selected, remaining);
      GreedyStep(p, candidates, selected, remaining, bestIdx);
      selected := selected + [remaining[bestIdx]];
      remaining := remaining[..bestIdx] + remaining[bestIdx + 1..];
    }
    GreedyConserves(p, candidates, selected, remaining);
  }

  lemma {:induction false} GreedyStep(p: Setting, candidates: seq<string>, selected: seq<string>,
                                      remaining: seq<string>, at: nat)
    requires IsRoot(p.sqrt) && Greedy(p, candidates, selected, remaining) && IsBest(p, selected, remaining, at)
    ensures Greedy(p, candidates, selected + [remaining[at]], Without(remaining, at))
  {
    assert (selected + [remaining[at]])[..|selected|] == selected;
  }

  /** Nothing is invented and nothing is lost. */
  lemma {:induction false} GreedyConserves(p: Setting, candidates: seq<string>, selected: seq<string>,
                                           remaining: seq<string>)
    requires IsRoot(p.sqrt) && Greedy(p, candidates, selected, remaining)
    ensures multiset(selected) + multiset(remaining) == multiset(candidates)
    decreases |selected|
  {
    if selected != [] {
      var last := |selected| - 1;
      var before, at :| Greedy(p, candidates, selected[..last], before) && IsBest(p, selected[..last], before, at)
                        && before[at] == selected[last] && remaining == Without(before, at);
      GreedyConserves(p, candidates, selected[..last], before);
      MoveOne(selected, before, at);
    }
  }

  lemma {:induction false} MoveOne(selected: seq<string>, before: seq<string>, at: nat)
    requires selected != [] && at < |before| && before[at] == selected[|selected| - 1]
    ensures multiset(selected) + multiset(Without(before, at)) ==
              multiset(selected[..|selected| - 1]) + multiset(before)
  {
    assert selected == selected[..|selected| - 1] + [selected[|selected| - 1]];
    assert before == before[..at] + [before[at]] + before[at + 1..];
  }

  /** Every front of the selection was selected in the same way. */
  lemma {:induction false} GreedyFront(p: Setting, candidates: seq<string>, selected: seq<string>,
                                       remaining: seq<string>, n: nat) returns (before: seq<string>, at: nat)
    requires IsRoot(p.sqrt) && Greedy(p, candidates, selected, remaining) && n < |selected|
    ensures Greedy(p, candidates, selected[..n], before) && IsBest(p, selected[..n], before, at)
    ensures before[at] == selected[n]
    decreases |selected|
  {
    var last := |selected| - 1;
    before, at :| Greedy(p, candidates, selected[..last], before) && IsBest(p, selected[..last], before, at)
                  && before[at] == selected[last] && remaining == Without(before, at);
    if n < last {
      before, at := GreedyFront(p, candidates, selected[..last], before, n);
      assert selected[..last][..n] == selected[..n];
    }
  }

  // ---- gap dominance ----

  lemma {:induction false} MaxSimRange(p: Setting, id: string, selected: seq<string>)
    requires IsRoot(p.sqrt)
    ensures 0.0 <= MaxSim(p, id, selected) <= 1.0
  {
    if selected != [] {
      var last := |selected| - 1;
      MaxSimRange(p, id, selected[..last]);
      SimilarityRange(VectorOf(p, id), VectorOf(p, selected[last]), p.sqrt);
    }
  }

  /** The advantage of `a` in relevance is more than diversity can ever take away. */
  predicate Gap(p: Setting, a: string, b: string) {
    p.lambda * (Relevance(p, a) - Relevance(p, b)) > 1.0 - p.lambda
  }

  lemma {:induction false} GapArithmetic(weight: real, ra: real, rb: real, sa: real, sb: real)
    requires 0.0 <= weight <= 1.0 && weight * (ra - rb) > 1.0 - weight && 0.0 <= sa <= 1.0 && 0.0 <= sb
    ensures Weigh(weight, ra, sa) > Weigh(weight, rb, sb) && Weigh(weight, ra, sa) >= Weigh(weight, ra, 1.0)
  {
    var rest := 1.0 - weight;
    PartOf(rest, sa);
    NotNegative(rest, sb);
    assert weight * (ra - rb) == weight * ra - weight * rb;
  }

  lemma {:induction false} PartOf(x: real, s: real)
    requires 0.0 <= x && s <= 1.0
    ensures x * s <= x
  {
    NotNegative(x, 1.0 - s);
    assert x * (1.0 - s) == x - x * s;
  }

  lemma {:induction false} NotNegative(x: real, y: real)
    requires 0.0 <= x && 0.0 <= y
    ensures 0.0 <= x * y
  {
  }

  lemma {:induction false} GapWins(p: Setting, a: string, b: string, selected: seq<string>)
    requires IsRoot(p.sqrt) && 0.0 <= p.lambda <= 1.0 && Gap(p, a, b)
    requires Weigh(p.lambda, Relevance(p, a), 1.0) > FLOOR
    ensures Clamp(Marginal(p, a, selected)) > Clamp(Marginal(p, b, selected))
  {
    MaxSimRange(p, a, selected);
    MaxSimRange(p, b, selected);
    GapArithmetic(p.lambda, Relevance(p, a), Relevance(p, b), MaxSim(p, a, selected), MaxSim(p, b, selected));
  }

  /** When `b` is selected, every copy of `a` among the candidates has been selected already. */
  lemma {:induction false} GapDominance(p: Setting, candidates: seq<string>, selected: seq<string>,
                                        remaining: seq<string>, a: string, b: string, n: nat)
    requires IsRoot(p.sqrt) && 0.0 <= p.lambda <= 1.0 && Gap(p, a, b)
    requires Weigh(p.lambda, Relevance(p, a), 1.0) > FLOOR
    requires Greedy(p, candidates, selected, remaining) && n < |selected| && selected[n] == b
    ensures multiset(selected[..n])[a] == multiset(candidates)[a]
  {
    var before, at := GreedyFront(p, candidates, selected, remaining, n);
    GapWins(p, a, b, selected[..n]);
    assert a !in before by {
      forall i | 0 <= i < |before| ensures before[i] != a {
        assert Clamp(Marginal(p, before[i], selected[..n])) <= Clamp(Marginal(p, b, selected[..n]));
      }
    }
    GreedyConserves(p, candidates, selected[..n], before);
    assert multiset(before)[a] == 0;
  }

  // ---- pure relevance ----

  /** Relevance descending, cut off at the floor. */
  function ByRelevance(p: Setting): (string, string) -> bool {
    (x, y) => Clamp(Relevance(p, x)) > Clamp(Relevance(p, y))
  }

  /** The stable sort begins with the first best element, and goes on as if it had not been there. */
  lemma {:induction false} SortHead<T(!new)>(s: seq<T>, less: (T, T) -> bool, at: nat)
    requires at < |s|
    requires forall i :: 0 <= i < at ==> less(s[at], s[i])
    requires forall i :: 0 <= i < |s| ==> !less(s[i], s[at])
    ensures Sort(s, less) == [s[at]] + Sort(Without(s, at), less)
    decreases |s|
  {
    if at == 0 {
      FrontStays(s, less);
    } else {
      SortHead(s[1..], less, at - 1);
      PassesBy(s, less, at);
    }
  }

  lemma {:induction false} FrontStays<T(!new)>(s: seq<T>, less: (T, T) -> bool)
    requires s != [] && forall i :: 0 <= i < |s| ==> !less(s[i], s[0])
    ensures Sort(s, less) == [s[0]] + Sort(Without(s, 0), less)
  {
    var rest := s[1..];
    assert Without(s, 0) == rest;
    SortElements(rest, less);
    SameMembers(Sort(rest, less), rest);
    if rest != [] {
      assert Sort(rest, less)[0] in rest;
    }
  }

  lemma {:induction false} PassesBy<T(!new)>(s: seq<T>, less: (T, T) -> bool, at: nat)
    requires 0 < at < |s| && less(s[at], s[0])
    requires Sort(s[1..], less) == [s[at]] + Sort(Without(s[1..], at - 1), less)
    ensures Sort(s, less) == [s[at]] + Sort(Without(s, at), less)
  {
    var tail := Sort(Without(s[1..], at - 1), less);
    assert Without(s, at)[0] == s[0] && Without(s, at)[1..] == Without(s[1..], at - 1);
    InsertPast(s[0], s[at], tail, less);
  }

  lemma {:induction false} InsertPast<T>(x: T, m: T, tail: seq<T>, less: (T, T) -> bool)
    requires less(m, x)
    ensures Insert(x, [m] + tail, less) == [m] + Insert(x, tail, less)
  {
    assert ([m] + tail)[1..] == tail;
  }

  lemma {:induction false} PureMarginal(p: Setting, id: string, selected: seq<string>)
    requires IsRoot(p.sqrt) && p.lambda == 1.0
    ensures Marginal(p, id, selected) == Relevance(p, id)
  {
  }

  lemma {:induction false} BestIsFirst(p: Setting, selected: seq<string>, before: seq<string>, at: nat)
    requires IsRoot(p.sqrt) && p.lambda == 1.0 && IsBest(p, selected, before, at)
    ensures Sort(before, ByRelevance(p)) == [before[at]] + Sort(Without(before, at), ByRelevance(p))
  {
    forall i | 0 <= i < |before| ensures Marginal(p, before[i], selected) == Relevance(p, before[i]) {
      PureMarginal(p, before[i], selected);
    }
    SortHead(before, ByRelevance(p), at);
  }

  /** With lambda 1 the selection is the front of the stable sort by relevance. */
  lemma {:induction false} PureRelevance(p: Setting, candidates: seq<string>, selected: seq<string>,
                                         remaining: seq<string>)
    requires IsRoot(p.sqrt) && p.lambda == 1.0 && Greedy(p, candidates, selected, remaining)
    ensures Sort(candidates, ByRelevance(p)) == selected + Sort(remaining, ByRelevance(p))
    decreases |selected|
  {
    if selected != [] {
      var last := |selected| - 1;
      var before, at :| Greedy(p, candidates, selected[..last], before) && IsBest(p, selected[..last], before, at)
                        && before[at] == selected[last] && remaining == Without(before, at);
      PureRelevance(p, candidates, selected[..last], before);
      BestIsFirst(p, selected[..last], before, at);
      Regrouped(selected, Sort(remaining, ByRelevance(p)));
    }
  }

  lemma {:induction false} Regrouped(selected: seq<string>, tail: seq<string>)
    requires selected != []
    ensures selected[..|selected| - 1] + ([selected[|selected| - 1]] + tail) == selected + tail
  {
  }

  predicate MoreRelevant(p: Setting, x: string, y: string) {
    Relevance(p, x) > Relevance(p, y)
  }

  lemma {:induction false} InsertAgree<T>(x: T, s: seq<T>, f: (T, T) -> bool, g: (T, T) -> bool)
    requires forall i :: 0 <= i < |s| ==> f(s[i], x) == g(s[i], x)
    ensures Insert(x, s, f) == Insert(x, s, g)
  {
    if s != [] {
      InsertAgree(x, s[1..], f, g);
    }
  }

  lemma {:induction false} TailMember<T>(s: seq<T>, x: T)
    requires s != [] && x in s[1..]
    ensures x in s
  {
    var i :| 0 <= i < |s| - 1 && s[1..][i] == x;
    assert s[i + 1] == x;
  }

  lemma {:induction false} SortAgree<T(!new)>(s: seq<T>, f: (T, T) -> bool, g: (T, T) -> bool)
    requires forall x, y :: x in s && y in s ==> f(x, y) == g(x, y)
    ensures Sort(s, f) == Sort(s, g)
  {
    if s != [] {
      var rest := s[1..];
      forall x | x in rest ensures x in s {
        TailMember(s, x);
      }
      SortAgree(rest, f, g);
      var t := Sort(rest, f);
      SortElements(rest, f);
      SameMembers(t, rest);
      forall i | 0 <= i < |t| ensures f(t[i], s[0]) == g(t[i], s[0]) {
        assert t[i] in t && t[i] in rest && s[0] in s;
      }
      InsertAgree(s[0], t, f, g);
    }
  }

  /** Above the floor the cut-off does not show. */
  lemma {:induction false} TopByRelevance(p: Setting, candidates: seq<string>, selected: seq<string>,
                                          remaining: seq<string>)
    requires IsRoot(p.sqrt) && p.lambda == 1.0 && Greedy(p, candidates, selected, remaining)
    requires forall id :: id in candidates ==> Relevance(p, id) > FLOOR
    ensures |selected| <= |candidates| && |Sort(candidates, (x, y) => MoreRelevant(p, x, y))| == |candidates|
    ensures selected == Sort(candidates, (x, y) => MoreRelevant(p, x, y))[..|selected|]
  {
    var plain := (x, y) => MoreRelevant(p, x, y);
    PureRelevance(p, candidates, selected, remaining);
    SortAgree(candidates, ByRelevance(p), plain);
    SortElements(candidates, plain);
  }

  // ---- the gap is the exact condition ----

  /** No setting with these two relevances lets `b` be selected while a copy of `a` is left. */
  ghost predicate NeverBefore(weight: real, ra: real, rb: real, sqrt: real -> real)
    requires IsRoot(sqrt)
  {
    forall p: Setting, candidates, selected, remaining, a, b, n: nat ::
      p.sqrt == sqrt && p.lambda == weight && Relevance(p, a) == ra && Relevance(p, b) == rb &&
      Greedy(p, candidates, selected, remaining) && n < |selected| && selected[n] == b
      ==> multiset(selected[..n])[a] == multiset(candidates)[a]
  }

  /** `a` looks exactly like the first choice, `b` has no vector at all. */
  function Rivals(weight: real, ra: real, rb: real, sqrt: real -> real): Setting {
    Setting(map["a" := ra, "b" := rb, "c" := Max(ra, rb)], map["a" := [1.0], "c" := [1.0]], weight, sqrt)
  }

  lemma {:induction false} UnitRoot(sqrt: real -> real)
    requires IsRoot(sqrt)
    ensures sqrt(1.0) == 1.0
  {
    PositiveRoot(sqrt, 1.0);
    UnitSquare(sqrt(1.0));
  }

  lemma {:induction false} UnitSquare(r: real)
    requires r > 0.0 && r * r == 1.0
    ensures r == 1.0
  {
    assert (r - 1.0) * (r + 1.0) == 0.0;
  }

  lemma {:induction false} SameDirection(sqrt: real -> real)
    requires IsRoot(sqrt)
    ensures Similarity([1.0], [1.0], sqrt) == 1.0
  {
    var v: Vector := [1.0];
    assert v[..0] == [];
    assert Dot(v, v) == 1.0;
    UnitRoot(sqrt);
  }

  lemma {:induction false} RivalSims(weight: real, ra: real, rb: real, sqrt: real -> real)
    requires IsRoot(sqrt)
    ensures var p := Rivals(weight, ra, rb, sqrt); MaxSim(p, "a", ["c"]) == 1.0 && MaxSim(p, "b", ["c"]) == 0.0
  {
    var p := Rivals(weight, ra, rb, sqrt);
    SameDirection(sqrt);
    var one := ["c"];
    assert one[..0] == [];
    assert MaxSim(p, "a", []) == 0.0 && MaxSim(p, "b", []) == 0.0;
    assert VectorOf(p, "b") == [] && VectorOf(p, "a") == [1.0] && VectorOf(p, "c") == [1.0];
  }

  lemma {:induction false} WeighMonotone(weight: real, r: real, s: real)
    requires 0.0 <= weight && r <= s
    ensures Weigh(weight, r, 0.0) <= Weigh(weight, s, 0.0)
  {
  }

  lemma {:induction false} FirstChoice(weight: real, ra: real, rb: real, sqrt: real -> real)
    requires IsRoot(sqrt) && 0.0 <= weight
    ensures IsBest(Rivals(weight, ra, rb, sqrt), [], ["c", "b", "a"], 0)
  {
    WeighMonotone(weight, ra, Max(ra, rb));
    WeighMonotone(weight, rb, Max(ra, rb));
  }

  lemma {:induction false} NoGapWeigh(weight: real, ra: real, rb: real)
    requires weight * (ra - rb) <= 1.0 - weight
    ensures Weigh(weight, ra, 1.0) <= Weigh(weight, rb, 0.0)
  {
  }

  lemma {:induction false} SecondChoice(weight: real, ra: real, rb: real, sqrt: real -> real)
    requires IsRoot(sqrt) && weight * (ra - rb) <= 1.0 - weight
    ensures IsBest(Rivals(weight, ra, rb, sqrt), ["c"], ["b", "a"], 0)
  {
    RivalSims(weight, ra, rb, sqrt);
    NoGapWeigh(weight, ra, rb);
  }

  lemma {:induction false} RivalRun(weight: real, ra: real, rb: real, sqrt: real -> real)
    requires IsRoot(sqrt) && 0.0 <= weight && weight * (ra - rb) <= 1.0 - weight
    ensures Greedy(Rivals(weight, ra, rb, sqrt), ["c", "b", "a"], ["c", "b"], ["a"])
  {
    FirstChoice(weight, ra, rb, sqrt);
    SecondChoice(weight, ra, rb, sqrt);
    TwoRounds(Rivals(weight, ra, rb, sqrt), "c", "b", "a");
  }

  lemma {:induction false} TwoRounds(p: Setting, x: string, y: string, z: string)
    requires IsRoot(p.sqrt) && IsBest(p, [], [x, y, z], 0) && IsBest(p, [x], [y, z], 0)
    ensures Greedy(p, [x, y, z], [x, y], [z])
  {
    OneRound(p, x, y, z);
    GreedyStep(p, [x, y, z], [x], [y, z], 0);
    assert [x] + [y] == [x, y] && Without([y, z], 0) == [z];
  }

  lemma {:induction false} OneRound(p: Setting, x: string, y: string, z: string)
    requires IsRoot(p.sqrt) && IsBest(p, [], [x, y, z], 0)
    ensures Greedy(p, [x, y, z], [x], [y, z])
  {
    var all := [x, y, z];
    GreedyStep(p, all, [], all, 0);
    assert [] + [all[0]] == [x] && Without(all, 0) == [y, z];
  }

  /** A run that selects `b` before `a` refutes the promise. */
  lemma {:induction false} Overtaken(p: Setting, x: string, b: string, a: string)
    requires IsRoot(p.sqrt) && Greedy(p, [x, b, a], [x, b], [a]) && a != x
    ensures !NeverBefore(p.lambda, Relevance(p, a), Relevance(p, b), p.sqrt)
  {
    var selected, candidates := [x, b], [x, b, a];
    assert selected[1] == b && selected[..1] == [x];
    assert multiset(selected[..1])[a] == 0 && multiset(candidates)[a] > 0;
  }

  lemma {:induction false} GapExactly(weight: real, ra: real, rb: real, sqrt: real -> real)
    requires IsRoot(sqrt) && 0.0 <= weight <= 1.0 && Weigh(weight, ra, 1.0) > FLOOR
    ensures NeverBefore(weight, ra, rb, sqrt) <==> weight * (ra - rb) > 1.0 - weight
  {
    if weight * (ra - rb) > 1.0 - weight {
      forall p: Setting, candidates, selected, remaining, a, b, n: nat |
        p.sqrt == sqrt && p.lambda == weight && Relevance(p, a) == ra && Relevance(p, b) == rb &&
        Greedy(p, candidates, selected, remaining) && n < |selected| && selected[n] == b
        ensures multiset(selected[..n])[a] == multiset(candidates)[a]
      {
        GapDominance(p, candidates, selected, remaining, a, b, n);
      }
    } else {
      RivalRun(weight, ra, rb, sqrt);
      var p := Rivals(weight, ra, rb, sqrt);
      assert Relevance(p, "a") == ra && Relevance(p, "b") == rb;
      Overtaken(p, "c", "b", "a");
    }
  }

  lemma {:induction false} BestUnique(p: Setting, selected: seq<string>, remaining: seq<string>, i: nat, j: nat)
    requires IsRoot(p.sqrt) && IsBest(p, selected, remaining, i) && IsBest(p, selected, remaining, j)
    ensures i == j
  {
    assert Clamp(Marginal(p, remaining[i], selected)) == Clamp(Marginal(p, remaining[j], selected));
  }

  // ---- the outcome is determined ----

  lemma {:induction false} GreedyUnique(p: Setting, candidates: seq<string>, s: seq<string>, r: seq<string>,
                                        s': seq<string>, r': seq<string>)
    requires IsRoot(p.sqrt) && Greedy(p, candidates, s, r) && Greedy(p, candidates, s', r') && |s| == |s'|
    ensures s == s' && r == r'
    decreases |s|
  {
    if s != [] {
      var last := |s| - 1;
      var before, at :| Greedy(p, candidates, s[..last], before) && IsBest(p, s[..last], before, at)
                        && before[at] == s[last] && r == Without(before, at);
      var before', at' :| Greedy(p, candidates, s'[..last], before') && IsBest(p, s'[..last], before', at')
                          && before'[at'] == s'[last] && r' == Without(before', at');
      GreedyUnique(p, candidates, s[..last], before, s'[..last], before');
      BestUnique(p, s[..last], before, at, at');
      SameEnds(s, s');
    }
  }

  lemma {:induction false} SameEnds(s: seq<string>, t: seq<string>)
    requires |s| == |t| > 0 && s[..|s| - 1] == t[..|t| - 1] && s[|s| - 1] == t[|t| - 1]
    ensures s == t
  {
    assert s == s[..|s| - 1] + [s[|s| - 1]] && t == t[..|t| - 1] + [t[|t| - 1]];
  }

  // ---- each choice, spelled out ----

  /** The closeness of `x` to the selection: the greatest similarity to any selected one, at least 0. */
  ghost predicate Closeness(p: Setting, x: string, selected: seq<string>, m: real)
    requires IsRoot(p.sqrt)
  {
    && m >= 0.0
    && (forall j :: 0 <= j < |selected| ==> Similarity(VectorOf(p, x), VectorOf(p, selected[j]), p.sqrt) <= m)
    && (m == 0.0 || exists j :: 0 <= j < |selected|
                                && Similarity(VectorOf(p, x), VectorOf(p, selected[j]), p.sqrt) == m)
  }

  lemma {:induction false} MaxSimIsCloseness(p: Setting, x: string, selected: seq<string>)
    requires IsRoot(p.sqrt)
    ensures Closeness(p, x, selected, MaxSim(p, x, selected))
  {
    if selected != [] {
      var last := |selected| - 1;
      MaxSimIsCloseness(p, x, selected[..last]);
      assert forall j :: 0 <= j < last ==> selected[..last][j] == selected[j];
    }
  }

  /** `w` is what `x` is worth after `selected`: relevance for the weight, closeness against it. */
  ghost predicate Worth(p: Setting, x: string, selected: seq<string>, w: real)
    requires IsRoot(p.sqrt)
  {
    exists m :: Closeness(p, x, selected, m) && Weighs(p, x, m, w)
  }

  ghost predicate Weighs(p: Setting, x: string, m: real, w: real) {
    w == p.lambda * (if x in p.relevance then p.relevance[x] else 0.0) - (1.0 - p.lambda) * m
  }

  lemma {:induction false} WorthIsMarginal(p: Setting, x: string, selected: seq<string>, w: real)
    requires IsRoot(p.sqrt) && Worth(p, x, selected, w)
    ensures w == Marginal(p, x, selected)
  {
    var m :| Closeness(p, x, selected, m) && Weighs(p, x, m, w);
    SameCloseness(p, x, selected, m);
    WeighsMarginal(p, x, selected, w);
  }

  lemma {:induction false} WeighsMarginal(p: Setting, x: string, selected: seq<string>, w: real)
    requires IsRoot(p.sqrt) && Weighs(p, x, MaxSim(p, x, selected), w)
    ensures w == Marginal(p, x, selected)
  {
  }

  lemma {:induction false} SameCloseness(p: Setting, x: string, selected: seq<string>, m: real)
    requires IsRoot(p.sqrt) && Closeness(p, x, selected, m)
    ensures m == MaxSim(p, x, selected)
  {
    MaxSimIsCloseness(p, x, selected);
    ClosenessUnique(p, x, selected, m, MaxSim(p, x, selected));
  }

  lemma {:induction false} MarginalIsWorth(p: Setting, x: string, selected: seq<string>)
    requires IsRoot(p.sqrt)
    ensures Worth(p, x, selected, Marginal(p, x, selected))
  {
    MaxSimIsCloseness(p, x, selected);
  }

  /** Above the cut-off the choice is worth as much as anything left and more than anything left ahead of it;
    * with nothing above the cut-off the first one left is taken. */
  ghost predicate Choice(p: Setting, selected: seq<string>, left: seq<string>, at: nat)
    requires IsRoot(p.sqrt)
  {
    at < |left| &&
    forall own :: Worth(p, left[at], selected, own) ==>
      && (own <= -1000000000000000000.0 ==> at == 0)
      && forall i, other :: 0 <= i < |left| && Worth(p, left[i], selected, other) ==>
           other <= -1000000000000000000.0 || (own >= other && (i < at ==> own > other))
  }

  lemma {:induction false} BestIsChoice(p: Setting, selected: seq<string>, left: seq<string>, at: nat)
    requires IsRoot(p.sqrt) && IsBest(p, selected, left, at)
    ensures Choice(p, selected, left, at)
  {
    forall own | Worth(p, left[at], selected, own)
      ensures own <= -1000000000000000000.0 ==> at == 0
    {
      WorthIsMarginal(p, left[at], selected, own);
      FloorFirst(p, selected, left, at);
    }
    forall own, i, other | Worth(p, left[at], selected, own) && 0 <= i < |left| && Worth(p, left[i], selected, other)
      ensures other <= -1000000000000000000.0 || (own >= other && (i < at ==> own > other))
    {
      WorthIsMarginal(p, left[at], selected, own);
      WorthIsMarginal(p, left[i], selected, other);
      BestBeats(p, selected, left, at, i);
    }
  }

  lemma {:induction false} FloorFirst(p: Setting, selected: seq<string>, left: seq<string>, at: nat)
    requires IsRoot(p.sqrt) && IsBest(p, selected, left, at)
    ensures Marginal(p, left[at], selected) <= FLOOR ==> at == 0
  {
    if at > 0 {
      assert Clamp(Marginal(p, left[0], selected)) < Clamp(Marginal(p, left[at], selected));
    }
  }

  lemma {:induction false} BestBeats(p: Setting, selected: seq<string>, left: seq<string>, at: nat, i: nat)
    requires IsRoot(p.sqrt) && IsBest(p, selected, left, at) && i < |left|
    ensures var own, other := Marginal(p, left[at], selected), Marginal(p, left[i], selected);
            other <= FLOOR || (own >= other && (i < at ==> own > other))
  {
    ClampKeeps(Marginal(p, left[i], selected), Marginal(p, left[at], selected));
  }

  lemma {:induction false} ClampKeeps(a: real, b: real)
    requires Clamp(a) <= Clamp(b)
    ensures a <= FLOOR || a <= b
    ensures Clamp(a) < Clamp(b) ==> a < b
  {
  }

  /** Each selected one is the choice among what the earlier ones left over. */
  lemma {:induction false} EachChoice(p: Setting, candidates: seq<string>, selected: seq<string>,
                                      remaining: seq<string>, n: nat)
    returns (left: seq<string>, at: nat)
    requires IsRoot(p.sqrt) && Greedy(p, candidates, selected, remaining) && n < |selected|
    ensures multiset(selected[..n]) + multiset(left) == multiset(candidates)
    ensures Choice(p, selected[..n], left, at) && left[at] == selected[n]
  {
    left, at := GreedyFront(p, candidates, selected, remaining, n);
    GreedyConserves(p, candidates, selected[..n], left);
    BestIsChoice(p, selected[..n], left, at);
  }

  lemma {:induction false} ClosenessUnique(p: Setting, x: string, selected: seq<string>, a: real, b: real)
    requires IsRoot(p.sqrt) && Closeness(p, x, selected, a) && Closeness(p, x, selected, b)
    ensures a == b
  {
  }
}
