/** When agreement between two rankings is certain to beat a single high rank. */
module Consensus {
  import opened Sorting
  import opened Fusion

  ghost predicate Precedes(ranking: seq<Scored>, x: string, y: string) {
    exists i, j :: 0 <= i < j < |ranking| && ranking[i].docId == x && ranking[j].docId == y
  }

  /** Two duplicate-free lists of at most `m` ids; `x` is in both of them, `y` in just one. */
  ghost predicate Contest(a: seq<string>, b: seq<string>, m: nat, x: string, y: string) {
    && Distinct(a) && Distinct(b) && |a| <= m && |b| <= m
    && x in a && x in b
    && (y in a) != (y in b)
  }

  // ---- scores of duplicate-free lists ----

  lemma {:induction false} ScoreOnce(list: seq<string>, k: int, at: nat)
    requires Distinct(list) && at < |list|
    ensures ListScore(list, k, list[at]) == Share(k, at)
  {
    var last := |list| - 1;
    if at == last {
      AbsentScores(list[..last], k, list[at]);
    } else {
      ScoreOnce(list[..last], k, at);
      assert list[..last][at] == list[at];
    }
  }

  lemma {:induction false} ScoreTwo(a: seq<string>, b: seq<string>, k: int, id: string)
    ensures Score([a, b], k, id) == ListScore(a, k, id) + ListScore(b, k, id)
  {
    assert [a, b][..1] == [a] && [a][..0] == [];
    assert Score([a], k, id) == Score([a][..0], k, id) + ListScore(a, k, id);
  }

  lemma {:induction false} ShareFalls(k: nat, r: nat, s: nat)
    requires r <= s
    ensures Share(k, r) >= Share(k, s) > 0.0
  {
    Reciprocals((k + r + 1) as real, (k + s + 1) as real);
  }

  lemma {:induction false} Reciprocals(p: real, q: real)
    requires 0.0 < p <= q
    ensures 1.0 / p >= 1.0 / q > 0.0
  {
    assert 1.0 / p - 1.0 / q == (q - p) / (p * q);
  }

  /** Twice the last of k + 1 shares is still more than the first. */
  lemma {:induction false} TwoLowBeatOneHigh(k: nat)
    ensures Share(k, k) + Share(k, k) > Share(k, 0)
  {
    var p := (k + 1) as real;
    var q := (k + k + 1) as real;
    assert q < 2.0 * p;
    TwoHalves(p, q);
  }

  lemma {:induction false} TwoHalves(p: real, q: real)
    requires 0.0 < q && 0.0 < p
    ensures q < 2.0 * p ==> 1.0 / q + 1.0 / q > 1.0 / p
    ensures q == 2.0 * p ==> 1.0 / q + 1.0 / q == 1.0 / p
  {
    var u, v := 1.0 / q, 1.0 / p;
    assert u * q == 1.0 && v * p == 1.0;
    if q < 2.0 * p {
      assert u * q < u * (2.0 * p);
      assert (u + u - v) * p > 0.0;
    }
    if q == 2.0 * p {
      assert u * (2.0 * p) == 1.0;
      assert (u + u - v) * p == 0.0;
    }
  }

  lemma {:induction false} BothScore(a: seq<string>, b: seq<string>, k: nat, x: string, y: string)
    requires k > 0 && Contest(a, b, k + 1, x, y)
    ensures Score([a, b], k, x) > Score([a, b], k, y)
  {
    ScoreTwo(a, b, k, x);
    ScoreTwo(a, b, k, y);
    var i :| 0 <= i < |a| && a[i] == x;
    var j :| 0 <= j < |b| && b[j] == x;
    ScoreOnce(a, k, i);
    ScoreOnce(b, k, j);
    ShareFalls(k, i, k);
    ShareFalls(k, j, k);
    TwoLowBeatOneHigh(k);
    SingleScore(a, b, k, y);
  }

  lemma {:induction false} SingleScore(a: seq<string>, b: seq<string>, k: nat, y: string)
    requires Distinct(a) && Distinct(b) && (y in a) != (y in b)
    ensures ListScore(a, k, y) + ListScore(b, k, y) <= Share(k, 0)
  {
    if y in a {
      InOne(a, k, y);
      AbsentScores(b, k, y);
    } else {
      InOne(b, k, y);
      AbsentScores(a, k, y);
    }
  }

  lemma {:induction false} InOne(a: seq<string>, k: nat, y: string)
    requires Distinct(a) && y in a
    ensures ListScore(a, k, y) <= Share(k, 0)
  {
    var i :| 0 <= i < |a| && a[i] == y;
    ScoreOnce(a, k, i);
    ShareFalls(k, 0, i);
  }

  // ---- positions in the ranking ----

  lemma {:induction false} PlaceOf(a: seq<string>, b: seq<string>, k: int, x: string) returns (i: nat)
    requires x in a || x in b
    ensures i < |Ranking([a, b], k)| && Ranking([a, b], k)[i] == Scored(x, Score([a, b], k, x))
  {
    var lists := [a, b];
    assert Appears(lists, x) by {
      assert x in lists[0] || x in lists[1];
    }
    RankingLists(lists, k);
    assert Scored(x, Score(lists, k, x)) in Ranking(lists, k);
    i :| 0 <= i < |Ranking(lists, k)| && Ranking(lists, k)[i] == Scored(x, Score(lists, k, x));
  }

  lemma {:induction false} HigherPrecedes(a: seq<string>, b: seq<string>, k: int, x: string, y: string)
    requires (x in a || x in b) && (y in a || y in b)
    requires Before(Scored(x, Score([a, b], k, x)), Scored(y, Score([a, b], k, y)))
    ensures Precedes(Ranking([a, b], k), x, y) && !Precedes(Ranking([a, b], k), y, x)
  {
    var r := Ranking([a, b], k);
    RankingLists([a, b], k);
    var i := PlaceOf(a, b, k, x);
    var j := PlaceOf(a, b, k, y);
    BeforeTotal(r[i], r[j]);
    assert i < j;
    forall n, m | 0 <= n < m < |r| && r[n].docId == y ensures r[m].docId != x {
      assert r[n] in r && r[m] in r;
      BeforeTotal(r[n], r[m]);
    }
  }

  // ---- the longest lists for which it is certain ----

  function Unary(c: char, n: nat): string {
    seq(n, i => c)
  }

  /** `y` heads one list; `x` closes both. */
  function Long(k: nat): seq<string> {
    seq(k + 2, i requires 0 <= i < k + 2 => Unary('a', i))
  }

  function Other(k: nat): seq<string> {
    seq(k + 2, i requires 0 <= i < k + 2 => if i == k + 1 then Unary('a', k + 1) else Unary('b', i + 1))
  }

  lemma {:induction false} LongDistinct(k: nat)
    ensures Distinct(Long(k)) && Distinct(Other(k))
  {
    forall i, j | 0 <= i < j < k + 2 ensures Long(k)[i] != Long(k)[j] {
      assert |Long(k)[i]| == i && |Long(k)[j]| == j;
    }
    forall i, j | 0 <= i < j < k + 2 ensures Other(k)[i] != Other(k)[j] {
      assert Other(k)[i][0] == 'b' && |Other(k)[i]| == i + 1;
      assert j == k + 1 ==> Other(k)[j][0] == 'a';
      assert j < k + 1 ==> |Other(k)[j]| == j + 1;
    }
  }

  lemma {:induction false} TooLong(k: nat, m: nat)
    requires k > 0 && m >= k + 2
    ensures Contest(Long(k), Other(k), m, Unary('a', k + 1), "")
    ensures Precedes(Ranking([Long(k), Other(k)], k), "", Unary('a', k + 1))
    ensures !Precedes(Ranking([Long(k), Other(k)], k), Unary('a', k + 1), "")
  {
    var a, b, x := Long(k), Other(k), Unary('a', k + 1);
    LongDistinct(k);
    assert a[k + 1] == x && b[k + 1] == x && a[0] == "";
    forall i | 0 <= i < |b| ensures b[i] != "" {
      assert |b[i]| > 0;
    }
    TieAtTheEnd(k);
    HigherPrecedes(a, b, k, "", x);
  }

  lemma {:induction false} TieAtTheEnd(k: nat)
    requires k > 0
    ensures Score([Long(k), Other(k)], k, Unary('a', k + 1)) == Score([Long(k), Other(k)], k, "")
  {
    var a, b, x := Long(k), Other(k), Unary('a', k + 1);
    LongDistinct(k);
    ScoreTwo(a, b, k, x);
    ScoreTwo(a, b, k, "");
    ScoreOnce(a, k, k + 1);
    ScoreOnce(b, k, k + 1);
    ScoreOnce(a, k, 0);
    assert a[k + 1] == x && b[k + 1] == x && a[0] == "";
    assert "" !in b by {
      forall i | 0 <= i < |b| ensures b[i] != "" {
        assert |b[i]| > 0;
      }
    }
    AbsentScores(b, k, "");
    TwoHalves((k + 1) as real, (k + (k + 1) + 1) as real);
  }

  ghost predicate ConsensusWins(k: int, m: nat) {
    forall a, b, x, y :: Contest(a, b, m, x, y) ==> Precedes(Ranking([a, b], k), x, y)
  }

  /** An id in both lists always precedes an id in one, exactly up to lists of k + 1 ids. */
  lemma {:induction false} ConsensusExactly(k: nat, m: nat)
    requires k > 0
    ensures ConsensusWins(k, m) <==> m <= k + 1
  {
    if m <= k + 1 {
      forall a, b, x, y | Contest(a, b, m, x, y) ensures Precedes(Ranking([a, b], k), x, y) {
        BothScore(a, b, k, x, y);
        HigherPrecedes(a, b, k, x, y);
      }
    } else {
      TooLong(k, m);
    }
  }
}
