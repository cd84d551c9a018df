/** Stable sorting by a comparison, and the lexicographic order of strings. */
module Sorting {

  /** A strict weak order: what a comparison passed to a sort has to be. */
  ghost predicate StrictWeak<T(!new)>(less: (T, T) -> bool) {
    && (forall x, y :: less(x, y) ==> !less(y, x))
    && (forall x, y, z :: !less(x, y) && !less(y, z) ==> !less(x, z))
  }

  ghost predicate Sorted<T>(s: seq<T>, less: (T, T) -> bool) {
    forall i, j :: 0 <= i < j < |s| ==> !less(s[j], s[i])
  }

  /** `x` goes in front of everything it is not greater than, so equal elements keep their order. */
  function Insert<T>(x: T, s: seq<T>, less: (T, T) -> bool): seq<T> {
    if s == [] || !less(s[0], x) then [x] + s else [s[0]] + Insert(x, s[1..], less)
  }

  function Sort<T>(s: seq<T>, less: (T, T) -> bool): seq<T> {
    if s == [] then [] else Insert(s[0], Sort(s[1..], less), less)
  }

  lemma {:induction false} InsertElements<T>(x: T, s: seq<T>, less: (T, T) -> bool)
    ensures multiset(Insert(x, s, less)) == multiset(s) + multiset{x}
    ensures |Insert(x, s, less)| == |s| + 1
  {
    if s != [] && less(s[0], x) {
      InsertElements(x, s[1..], less);
      assert s == [s[0]] + s[1..];
    }
  }

  lemma {:induction false} SortElements<T>(s: seq<T>, less: (T, T) -> bool)
    ensures multiset(Sort(s, less)) == multiset(s)
    ensures |Sort(s, less)| == |s|
  {
    if s != [] {
      SortElements(s[1..], less);
      InsertElements(s[0], Sort(s[1..], less), less);
      assert s == [s[0]] + s[1..];
    }
  }

  lemma {:induction false} SameMembers<T>(a: seq<T>, b: seq<T>)
    requires multiset(a) == multiset(b)
    ensures forall x :: x in a <==> x in b
  {
    forall x ensures x in a <==> x in b {
      assert x in a <==> x in multiset(a);
      assert x in b <==> x in multiset(b);
    }
  }

  lemma {:induction false} InsertSorted<T(!new)>(x: T, s: seq<T>, less: (T, T) -> bool)
    requires StrictWeak(less) && Sorted(s, less)
    ensures Sorted(Insert(x, s, less), less)
  {
    var r := Insert(x, s, less);
    if s == [] {
    } else if !less(s[0], x) {
      forall j | 0 < j < |r| ensures !less(r[j], x) {
        assert r[j] == s[j - 1];
        assert j > 1 ==> !less(s[j - 1], s[0]);
      }
    } else {
      InsertSorted(x, s[1..], less);
      InsertElements(x, s[1..], less);
      var rest := Insert(x, s[1..], less);
      forall j | 0 < j < |r| ensures !less(r[j], s[0]) {
        assert r[j] == rest[j - 1] && rest[j - 1] in multiset(rest);
        assert r[j] == x || r[j] in s[1..];
        if r[j] in s[1..] {
          var k :| 0 <= k < |s| - 1 && s[1..][k] == r[j];
          assert s[k + 1] == r[j];
        }
      }
    }
  }

  lemma {:induction false} SortSorted<T(!new)>(s: seq<T>, less: (T, T) -> bool)
    requires StrictWeak(less)
    ensures Sorted(Sort(s, less), less)
  {
    if s != [] {
      SortSorted(s[1..], less);
      InsertSorted(s[0], Sort(s[1..], less), less);
    }
  }

  // ---- what stable sorting means ----

  /** `perm` lists the places 0, 1, ..., n - 1, each once. */
  ghost predicate Arranges(perm: seq<nat>, n: nat) {
    && |perm| == n && (forall i, j :: 0 <= i < j < n ==> perm[i] != perm[j])
    && (forall i :: 0 <= i < n ==> perm[i] < n) && forall k :: 0 <= k < n ==> k in perm
  }

  /** Read in the order of `perm`, no element belongs before an earlier one, and elements that
    * belong nowhere in particular stay in their order. */
  ghost predicate StableOrder<T>(s: seq<T>, perm: seq<nat>, less: (T, T) -> bool) {
    && (forall i :: 0 <= i < |perm| ==> perm[i] < |s|)
    && forall i, j :: 0 <= i < j < |perm| ==>
         less(s[perm[i]], s[perm[j]]) || (!less(s[perm[j]], s[perm[i]]) && perm[i] < perm[j])
  }

  lemma {:induction false} InsertAt<T>(x: T, s: seq<T>, less: (T, T) -> bool) returns (p: nat)
    ensures p <= |s| && Insert(x, s, less) == s[..p] + ([x] + s[p..])
    ensures forall q :: 0 <= q < p ==> less(s[q], x)
    ensures p < |s| ==> !less(s[p], x)
  {
    if s == [] || !less(s[0], x) {
      p := 0;
    } else {
      var q := InsertAt(x, s[1..], less);
      p := q + 1;
      assert s[..p] == [s[0]] + s[1..][..q] && s[p..] == s[1..][q..];
    }
  }

  function Shifted(perm: seq<nat>): seq<nat> {
    seq(|perm|, i requires 0 <= i < |perm| => perm[i] + 1)
  }

  /** A new first place, listed at `p`. */
  function Admit(perm: seq<nat>, p: nat): (r: seq<nat>)
    requires p <= |perm|
    ensures |r| == |perm| + 1 && r[p] == 0
    ensures forall i :: 0 <= i < p ==> r[i] == perm[i] + 1
    ensures forall i :: p < i < |r| ==> r[i] == perm[i - 1] + 1
  {
    Shifted(perm)[..p] + ([0] + Shifted(perm)[p..])
  }

  lemma {:induction false} AdmitListed(perm: seq<nat>, p: nat, k: nat)
    requires p <= |perm| && (k == 0 || k - 1 in perm)
    ensures k in Admit(perm, p)
  {
    var r := Admit(perm, p);
    if k == 0 {
      assert r[p] == 0;
    } else {
      var i :| 0 <= i < |perm| && perm[i] == k - 1;
      assert r[if i < p then i else i + 1] == k;
    }
  }

  lemma {:induction false} AdmitDistinct(perm: seq<nat>, p: nat, n: nat)
    requires Arranges(perm, n) && p <= n
    ensures forall i, j :: 0 <= i < j < n + 1 ==> Admit(perm, p)[i] != Admit(perm, p)[j]
  {
    var r := Admit(perm, p);
    forall i, j | 0 <= i < j < n + 1 ensures r[i] != r[j] {
      var i', j' := if i < p then i else i - 1, if j < p then j else j - 1;
      if i != p && j != p {
        assert perm[i'] != perm[j'];
      }
    }
  }

  lemma {:induction false} AdmitArranges(perm: seq<nat>, p: nat, n: nat)
    requires Arranges(perm, n) && p <= n
    ensures Arranges(Admit(perm, p), n + 1)
  {
    AdmitDistinct(perm, p, n);
    forall k | 0 <= k < n + 1 ensures k in Admit(perm, p) {
      AdmitListed(perm, p, k);
    }
  }

  lemma {:induction false} AdmitStable<T(!new)>(s: seq<T>, perm: seq<nat>, p: nat, less: (T, T) -> bool)
    requires StrictWeak(less) && s != [] && p <= |perm| && StableOrder(s[1..], perm, less)
    requires forall q :: 0 <= q < p ==> less(s[1..][perm[q]], s[0])
    requires p < |perm| ==> !less(s[1..][perm[p]], s[0])
    ensures StableOrder(s, Admit(perm, p), less)
  {
    var r := Admit(perm, p);
    forall i | 0 <= i < |r| ensures r[i] < |s| && s[r[i]] == if i == p then s[0] else s[1..][r[i] - 1] {
    }
    forall i, j | 0 <= i < j < |r|
      ensures less(s[r[i]], s[r[j]]) || (!less(s[r[j]], s[r[i]]) && r[i] < r[j])
    {
      if i == p && j > p + 1 {
        assert !less(s[1..][perm[j - 1]], s[1..][perm[p]]);
      }
    }
  }

  /** `sorted` is `s` read in the order of `perm`. */
  ghost predicate ReadsAs<T>(s: seq<T>, perm: seq<nat>, sorted: seq<T>) {
    && |sorted| == |perm| == |s|
    && forall i :: 0 <= i < |s| ==> perm[i] < |s| && sorted[i] == s[perm[i]]
  }

  lemma {:induction false} AdmitReads<T>(s: seq<T>, t: seq<T>, perm: seq<nat>, p: nat)
    requires s != [] && ReadsAs(s[1..], perm, t) && p <= |t|
    ensures ReadsAs(s, Admit(perm, p), t[..p] + ([s[0]] + t[p..]))
  {
  }

  lemma {:induction false} AdmitSorted<T(!new)>(s: seq<T>, t: seq<T>, perm: seq<nat>, p: nat, less: (T, T) -> bool)
    requires StrictWeak(less) && s != [] && StableOrder(s[1..], perm, less) && ReadsAs(s[1..], perm, t) && p <= |t|
    requires forall q :: 0 <= q < p ==> less(t[q], s[0])
    requires p < |t| ==> !less(t[p], s[0])
    ensures StableOrder(s, Admit(perm, p), less)
  {
    AdmitStable(s, perm, p, less);
  }

  /** Sorting is the stable rearrangement of its input. */
  lemma {:induction false} SortIsStable<T(!new)>(s: seq<T>, less: (T, T) -> bool) returns (perm: seq<nat>)
    requires StrictWeak(less)
    ensures Arranges(perm, |s|) && StableOrder(s, perm, less) && ReadsAs(s, perm, Sort(s, less))
  {
    if s == [] {
      perm := [];
    } else {
      var rest := SortIsStable(s[1..], less);
      var t := Sort(s[1..], less);
      var p := InsertAt(s[0], t, less);
      AdmitArranges(rest, p, |t|);
      AdmitSorted(s, t, rest, p, less);
      AdmitReads(s, t, rest, p);
      perm := Admit(rest, p);
    }
  }

  // ---- listings without ties are unique ----

  ghost predicate Increasing<T>(s: seq<T>, less: (T, T) -> bool) {
    forall i, j :: 0 <= i < j < |s| ==> less(s[i], s[j])
  }

  /** There is only one strictly increasing listing of a set of elements. */
  lemma {:induction false} IncreasingUnique<T(!new)>(a: seq<T>, b: seq<T>, less: (T, T) -> bool)
    requires forall x, y :: less(x, y) ==> !less(y, x)
    requires Increasing(a, less) && Increasing(b, less) && forall x :: x in a <==> x in b
    ensures a == b
  {
    assert b != [] ==> b[0] in b;
    if a != [] {
      assert a[0] in a && a[0] in b;
      assert b[0] in b && b[0] in a;
      var i :| 0 <= i < |b| && b[i] == a[0];
      var j :| 0 <= j < |a| && a[j] == b[0];
      assert a[0] == b[0];
      forall x ensures x in a[1..] <==> x in b[1..] {
        TailMembers(a, less, x);
        TailMembers(b, less, x);
      }
      IncreasingUnique(a[1..], b[1..], less);
      assert a == [a[0]] + a[1..] && b == [b[0]] + b[1..];
    }
  }

  lemma {:induction false} TailMembers<T(!new)>(a: seq<T>, less: (T, T) -> bool, x: T)
    requires a != [] && Increasing(a, less) && forall x, y :: less(x, y) ==> !less(y, x)
    ensures x in a[1..] <==> x in a && x != a[0]
  {
    if x in a[1..] {
      var k :| 0 <= k < |a| - 1 && a[1..][k] == x;
      assert less(a[0], a[k + 1]);
    }
    if x in a && x != a[0] {
      var k :| 0 <= k < |a| && a[k] == x;
      assert a[1..][k - 1] == x;
    }
  }

  ghost predicate Distinct<T>(s: seq<T>) {
    forall i, j :: 0 <= i < j < |s| ==> s[i] != s[j]
  }

  lemma {:induction false} DistinctOnce<T>(s: seq<T>, x: T)
    requires Distinct(s)
    ensures multiset(s)[x] <= 1
  {
    if s != [] {
      DistinctOnce(s[1..], x);
      assert s == [s[0]] + s[1..];
      assert x == s[0] ==> x !in s[1..];
    }
  }

  lemma {:induction false} StillDistinct<T>(s: seq<T>, t: seq<T>, i: nat, j: nat)
    requires Distinct(s) && multiset(t) == multiset(s) && i < j < |t|
    ensures t[i] != t[j]
  {
    DistinctOnce(s, t[i]);
    assert t == t[..i] + [t[i]] + t[i + 1..j] + [t[j]] + t[j + 1..];
  }

  // ---- strings ----

  predicate StrLess(a: string, b: string) {
    if b == "" then false
    else if a == "" then true
    else if a[0] != b[0] then a[0] < b[0]
    else StrLess(a[1..], b[1..])
  }

  lemma {:induction false} StrLessTotal(a: string, b: string)
    ensures StrLess(a, b) ==> !StrLess(b, a)
    ensures a != b ==> StrLess(a, b) || StrLess(b, a)
  {
    if a != "" && b != "" && a[0] == b[0] {
      StrLessTotal(a[1..], b[1..]);
      assert a == [a[0]] + a[1..] && b == [b[0]] + b[1..];
    }
  }

  lemma {:induction false} StrLessTransitive(a: string, b: string, c: string)
    requires StrLess(a, b) && StrLess(b, c)
    ensures StrLess(a, c)
  {
    if a != "" && a[0] == b[0] == c[0] {
      StrLessTransitive(a[1..], b[1..], c[1..]);
    }
  }

  lemma {:induction false} StrLessOrder()
    ensures StrictWeak(StrLess)
  {
    forall x, y ensures StrLess(x, y) ==> !StrLess(y, x) {
      StrLessTotal(x, y);
    }
    forall x, y, z | !StrLess(x, y) && !StrLess(y, z) ensures !StrLess(x, z) {
      if StrLess(x, z) {
        StrLessTotal(x, y);
        StrLessTotal(y, z);
        if y != x && y != z {
          StrLessTransitive(z, y, x);
          StrLessTotal(x, z);
        }
      }
    }
  }

  lemma {:induction false} DistinctSorted(keys: seq<string>)
    requires Distinct(keys)
    ensures Increasing(Sort(keys, StrLess), StrLess)
  {
    var s := Sort(keys, StrLess);
    StrLessOrder();
    SortSorted(keys, StrLess);
    SortElements(keys, StrLess);
    forall i, j | 0 <= i < j < |s| ensures StrLess(s[i], s[j]) {
      StillDistinct(keys, s, i, j);
      StrLessTotal(s[i], s[j]);
    }
  }

  /** The members of a set in increasing order, collected in any order and sorted. */
  method SortedKeys(names: set<string>) returns (sorted: seq<string>)
    ensures Increasing(sorted, StrLess) && forall k :: k in sorted <==> k in names
  {
    var keys: seq<string> := [];
    var left := names;
    while left != {}
      invariant left <= names && forall k :: k in keys <==> k in names && k !in left
      invariant Distinct(keys)
      decreases left
    {
      var k :| k in left;
      keys := keys + [k];
      left := left - {k};
    }
    DistinctSorted(keys);
    SortElements(keys, StrLess);
    sorted := Sort(keys, StrLess);
    SameMembers(sorted, keys);
  }

  predicate AgreeUpTo(a: string, b: string, n: nat) {
    n <= |a| && n <= |b| && forall i :: 0 <= i < n ==> a[i] == b[i]
  }

  /** They agree up to `n`, and there `a` ends or has the lesser character. */
  predicate LessAt(a: string, b: string, n: nat) {
    n < |b| && AgreeUpTo(a, b, n) && (n == |a| || a[n] < b[n])
  }

  /** The order of strings: at the first place where they differ the lesser character decides, and a
    * string comes before those it begins. */
  lemma {:induction false} StrLessExactly(a: string, b: string)
    ensures StrLess(a, b) <==> exists n: nat :: LessAt(a, b, n)
  {
    if a == "" || b == "" || a[0] != b[0] {
      assert a != "" && b != "" ==> forall n: nat :: AgreeUpTo(a, b, n) ==> n == 0;
      assert b != "" && (a == "" || a[0] < b[0]) ==> LessAt(a, b, 0);
    } else {
      StrLessExactly(a[1..], b[1..]);
      forall n: nat ensures LessAt(a, b, n + 1) <==> LessAt(a[1..], b[1..], n) {
        AgreeLonger(a, b, n);
      }
      if n: nat :| LessAt(a, b, n) {
        assert n > 0;
        assert LessAt(a[1..], b[1..], n - 1);
      }
    }
  }

  lemma {:induction false} AgreeLonger(a: string, b: string, n: nat)
    requires a != "" && b != "" && a[0] == b[0]
    ensures AgreeUpTo(a, b, n + 1) <==> AgreeUpTo(a[1..], b[1..], n)
  {
    if AgreeUpTo(a, b, n + 1) {
      forall i | 0 <= i < n ensures a[1..][i] == b[1..][i] {
        assert a[i + 1] == b[i + 1];
      }
    }
  }
}
