/** The canonical text behind the answer-cache key (internal/cache/cache.go). The SHA-1 of the
  * text is taken to be collision free, so the text itself is the key. */
module CacheKey {
  import opened Decimal
  import opened Sets
  import opened Sorting
  import opened Texts

  type Filters = map<string, string>

  /** strings.ToLower works rune by rune; `lower` is its rune mapping. */
  function ToLower(lower: char -> char, s: string): string {
    seq(|s|, i requires 0 <= i < |s| => lower(s[i]))
  }

  function Normalize(lower: char -> char, query: string): string {
    ToLower(lower, TrimSpace(query))
  }

  function Clause(k: string, v: string): string {
    "|" + k + "=" + v
  }

  function Clauses(keys: seq<string>, filters: Filters): string
    requires forall k :: k in keys ==> k in filters
  {
    if keys == [] then "" else Clause(keys[0], filters[keys[0]]) + Clauses(keys[1..], filters)
  }

  /** The names of a filter map in increasing order: there is exactly one such list. */
  ghost predicate SortedNames(keys: seq<string>, filters: Filters) {
    Increasing(keys, StrLess) && forall k :: k in keys <==> k in filters
  }

  function Head(gen: int): string {
    "g" + Signed(gen) + "|"
  }

  function Text(lower: char -> char, query: string, filters: Filters, gen: int, keys: seq<string>): string
    requires forall k :: k in keys ==> k in filters
  {
    Head(gen) + (Normalize(lower, query) + Clauses(keys, filters))
  }

  /** `s` is the key text of the query; it does not depend on how the map was walked. */
  ghost predicate IsKey(lower: char -> char, query: string, filters: Filters, gen: int, s: string) {
    exists keys :: SortedNames(keys, filters) && s == Text(lower, query, filters, gen, keys)
  }

  /** The filter names in order, collected in whatever order the map yields them. */
  method Names(filters: Filters) returns (sorted: seq<string>)
    ensures SortedNames(sorted, filters)
  {
    sorted := SortedKeys(filters.Keys);
  }

  method Key(lower: char -> char, query: string, filters: Filters, gen: int) returns (text: string)
    ensures IsKey(lower, query, filters, gen, text)
  {
    var keys := Names(filters);
    var tail := Normalize(lower, query);
    var i := 0;
    while i < |keys|
      invariant 0 <= i <= |keys| && (forall k :: k in keys ==> k in filters)
      invariant tail + Clauses(keys[i..], filters) == Normalize(lower, query) + Clauses(keys, filters)
    {
      Append(tail, keys[i..], filters);
      assert keys[i..][1..] == keys[i + 1..];
      tail := tail + Clause(keys[i], filters[keys[i]]);
      i := i + 1;
    }
    text := Head(gen) + tail;
    assert keys[i..] == [] && tail + "" == tail;
    assert text == Text(lower, query, filters, gen, keys);
  }

  lemma {:induction false} Append(tail: string, keys: seq<string>, filters: Filters)
    requires keys != [] && forall k :: k in keys ==> k in filters
    ensures tail + Clauses(keys, filters) == (tail + Clause(keys[0], filters[keys[0]])) + Clauses(keys[1..], filters)
  {
  }

  /** The key is a function of the query: no map order can give two different texts. */
  lemma {:induction false} KeyUnique(lower: char -> char, query: string, filters: Filters, gen: int, s: string,
                                     t: string)
    requires IsKey(lower, query, filters, gen, s) && IsKey(lower, query, filters, gen, t)
    ensures s == t
  {
    var ks :| SortedNames(ks, filters) && s == Text(lower, query, filters, gen, ks);
    var kt :| SortedNames(kt, filters) && t == Text(lower, query, filters, gen, kt);
    StrLessOrder();
    IncreasingUnique(ks, kt, StrLess);
  }

  // ---- what equal keys say ----

  predicate Free(s: string, c: char) {
    forall i :: 0 <= i < |s| ==> s[i] != c
  }

  /** The first separator cuts both texts at the same place. */
  lemma {:induction false} CutFirst(a: string, x: string, b: string, y: string, c: char)
    requires Free(a, c) && Free(b, c) && a + [c] + x == b + [c] + y
    ensures a == b && x == y
  {
    var s, t := a + [c] + x, b + [c] + y;
    assert s[|a|] == c && t[|b|] == c;
    assert forall i :: 0 <= i < |a| ==> s[i] == a[i];
    assert forall i :: 0 <= i < |b| ==> t[i] == b[i];
    assert a == s[..|a|] && b == t[..|b|];
    assert x == s[|a| + 1..] && y == t[|b| + 1..];
  }

  lemma {:induction false} SignedFree(n: int)
    ensures Free(Signed(n), '|')
  {
  }

  lemma {:induction false} HeadCut(g1: int, x1: string, g2: int, x2: string)
    requires Head(g1) + x1 == Head(g2) + x2
    ensures g1 == g2 && x1 == x2
  {
    var a, b := "g" + Signed(g1), "g" + Signed(g2);
    SignedFree(g1);
    SignedFree(g2);
    assert Head(g1) + x1 == a + ['|'] + x1 && Head(g2) + x2 == b + ['|'] + x2;
    CutFirst(a, x1, b, x2, '|');
    assert a[1..] == Signed(g1) && b[1..] == Signed(g2);
    SignedInjective(g1, g2);
  }

  /** Equal keys always belong to the same generation, whatever the query and filters contain. */
  lemma {:induction false} SameGeneration(lower: char -> char, q1: string, f1: Filters, g1: int, q2: string,
                                          f2: Filters, g2: int, s: string)
    requires IsKey(lower, q1, f1, g1, s) && IsKey(lower, q2, f2, g2, s)
    ensures g1 == g2
  {
    var k1 :| SortedNames(k1, f1) && s == Text(lower, q1, f1, g1, k1);
    var k2 :| SortedNames(k2, f2) && s == Text(lower, q2, f2, g2, k2);
    HeadCut(g1, Normalize(lower, q1) + Clauses(k1, f1), g2, Normalize(lower, q2) + Clauses(k2, f2));
  }

  /** No separator inside a component. */
  predicate WellFormed(query: string, filters: Filters) {
    Free(query, '|') && forall k :: k in filters ==> Free(k, '|') && Free(k, '=') && Free(filters[k], '|')
  }

  lemma {:induction false} ClauseCut(k1: string, v1: string, x1: string, k2: string, v2: string, x2: string)
    requires Free(k1, '=') && Free(k2, '=') && Free(k1, '|') && Free(k2, '|') && Free(v1, '|') && Free(v2, '|')
    requires (x1 == "" || x1[0] == '|') && (x2 == "" || x2[0] == '|') && Clause(k1, v1) + x1 == Clause(k2, v2) + x2
    ensures k1 == k2 && v1 == v2 && x1 == x2
  {
    var s, t := Clause(k1, v1) + x1, Clause(k2, v2) + x2;
    assert s[1..] == k1 + ['='] + (v1 + x1) && t[1..] == k2 + ['='] + (v2 + x2);
    CutFirst(k1, v1 + x1, k2, v2 + x2, '=');
    ValueCut(v1, x1, v2, x2);
  }

  /** A separator-free text ends where the next clause, or nothing, begins. */
  lemma {:induction false} ValueCut(v1: string, x1: string, v2: string, x2: string)
    requires Free(v1, '|') && Free(v2, '|') && v1 + x1 == v2 + x2
    requires (x1 == "" || x1[0] == '|') && (x2 == "" || x2[0] == '|')
    ensures v1 == v2 && x1 == x2
  {
    var s, t := v1 + x1, v2 + x2;
    assert forall i :: 0 <= i < |v1| ==> s[i] == v1[i];
    assert forall i :: 0 <= i < |v2| ==> t[i] == v2[i];
    assert x1 != "" ==> s[|v1|] == '|';
    assert x2 != "" ==> t[|v2|] == '|';
    assert |v1| == |v2|;
    assert v1 == s[..|v1|] && v2 == t[..|v2|] && x1 == s[|v1|..] && x2 == t[|v2|..];
  }

  lemma {:induction false} ClausesStart(keys: seq<string>, filters: Filters)
    requires forall k :: k in keys ==> k in filters
    ensures Clauses(keys, filters) == "" || Clauses(keys, filters)[0] == '|'
    ensures Clauses(keys, filters) == "" <==> keys == []
  {
  }

  lemma {:induction false} ClausesInjective(k1: seq<string>, f1: Filters, k2: seq<string>, f2: Filters)
    requires (forall k :: k in k1 ==> k in f1 && Free(k, '|') && Free(k, '=') && Free(f1[k], '|'))
    requires (forall k :: k in k2 ==> k in f2 && Free(k, '|') && Free(k, '=') && Free(f2[k], '|'))
    requires Clauses(k1, f1) == Clauses(k2, f2)
    ensures k1 == k2 && forall k :: k in k1 ==> f1[k] == f2[k]
    decreases |k1|
  {
    ClausesStart(k1, f1);
    ClausesStart(k2, f2);
    if k1 != [] {
      var a, b := k1[0], k2[0];
      ClausesStart(k1[1..], f1);
      ClausesStart(k2[1..], f2);
      ClauseCut(a, f1[a], Clauses(k1[1..], f1), b, f2[b], Clauses(k2[1..], f2));
      ClausesInjective(k1[1..], f1, k2[1..], f2);
      assert k1 == [a] + k1[1..] && k2 == [b] + k2[1..];
    }
  }

  lemma {:induction false} TrimLeftFree(s: string)
    requires Free(s, '|')
    ensures Free(TrimLeft(s), '|')
  {
    if s != "" && IsSpace(s[0]) {
      TrimLeftFree(s[1..]);
    }
  }

  lemma {:induction false} TrimRightFree(s: string)
    requires Free(s, '|')
    ensures Free(TrimRight(s), '|')
  {
    if s != "" && IsSpace(s[|s| - 1]) {
      TrimRightFree(s[..|s| - 1]);
    }
  }

  /** For components without separators the key is exact: equal keys mean equal normalised
    * queries and equal filters. */
  lemma {:induction false} KeyInjective(lower: char -> char, q1: string, f1: Filters, g1: int, q2: string, f2: Filters,
                                        g2: int, s: string)
    requires forall c :: lower(c) == '|' ==> c == '|'
    requires WellFormed(q1, f1) && WellFormed(q2, f2) && IsKey(lower, q1, f1, g1, s) && IsKey(lower, q2, f2, g2, s)
    ensures g1 == g2 && Normalize(lower, q1) == Normalize(lower, q2) && f1 == f2
  {
    var k1 :| SortedNames(k1, f1) && s == Text(lower, q1, f1, g1, k1);
    var k2 :| SortedNames(k2, f2) && s == Text(lower, q2, f2, g2, k2);
    var n1, n2 := Normalize(lower, q1), Normalize(lower, q2);
    HeadCut(g1, n1 + Clauses(k1, f1), g2, n2 + Clauses(k2, f2));
    NormalFree(lower, q1);
    NormalFree(lower, q2);
    TailInjective(n1, k1, f1, n2, k2, f2);
  }

  lemma {:induction false} TailInjective(n1: string, k1: seq<string>, f1: Filters, n2: string, k2: seq<string>,
                                         f2: Filters)
    requires Free(n1, '|') && SortedNames(k1, f1) && forall k :: k in f1 ==>
               Free(k, '|') && Free(k, '=') && Free(f1[k], '|')
    requires Free(n2, '|') && SortedNames(k2, f2) && forall k :: k in f2 ==>
               Free(k, '|') && Free(k, '=') && Free(f2[k], '|')
    requires n1 + Clauses(k1, f1) == n2 + Clauses(k2, f2)
    ensures n1 == n2 && f1 == f2
  {
    ClausesStart(k1, f1);
    ClausesStart(k2, f2);
    ValueCut(n1, Clauses(k1, f1), n2, Clauses(k2, f2));
    ClausesInjective(k1, f1, k2, f2);
  }

  lemma {:induction false} NormalFree(lower: char -> char, q: string)
    requires Free(q, '|') && forall c :: lower(c) == '|' ==> c == '|'
    ensures Free(Normalize(lower, q), '|')
  {
    TrimLeftFree(q);
    TrimRightFree(TrimLeft(q));
  }

  // ---- where keys of different requests meet ----

  /** The part of the key text behind the generation. */
  ghost predicate IsTail(lower: char -> char, query: string, filters: Filters, tail: string) {
    exists keys :: SortedNames(keys, filters) && tail == Normalize(lower, query) + Clauses(keys, filters)
  }

  lemma {:induction false} KeyIsTail(lower: char -> char, query: string, filters: Filters, gen: int, tail: string)
    ensures IsKey(lower, query, filters, gen, Head(gen) + tail) <==> IsTail(lower, query, filters, tail)
  {
    var s := Head(gen) + tail;
    if IsTail(lower, query, filters, tail) {
      var keys :| SortedNames(keys, filters) && tail == Normalize(lower, query) + Clauses(keys, filters);
      assert s == Text(lower, query, filters, gen, keys);
    }
    if IsKey(lower, query, filters, gen, s) {
      var keys :| SortedNames(keys, filters) && s == Text(lower, query, filters, gen, keys);
      HeadCut(gen, tail, gen, Normalize(lower, query) + Clauses(keys, filters));
    }
  }

  lemma {:induction false} Enumerate(names: set<string>) returns (keys: seq<string>)
    ensures Distinct(keys) && forall k :: k in keys <==> k in names
  {
    if names == {} {
      keys := [];
    } else {
      var k := AnyOf(names);
      var rest := Enumerate(names - {k});
      keys := rest + [k];
    }
  }

  /** Every request has a key text. */
  lemma {:induction false} TailExists(lower: char -> char, query: string, filters: Filters) returns (tail: string)
    ensures IsTail(lower, query, filters, tail)
  {
    var names := Enumerate(filters.Keys);
    DistinctSorted(names);
    SortElements(names, StrLess);
    var keys := Sort(names, StrLess);
    SameMembers(keys, names);
    assert SortedNames(keys, filters);
    tail := Normalize(lower, query) + Clauses(keys, filters);
  }

  /** Two requests have the same text behind the generation, and so the same key in every one. */
  ghost predicate SameText(lower: char -> char, q1: string, f1: Filters, q2: string, f2: Filters) {
    exists tail :: IsTail(lower, q1, f1, tail) && IsTail(lower, q2, f2, tail)
  }

  lemma {:induction false} TailUnique(lower: char -> char, q: string, f: Filters, s: string, t: string)
    requires IsTail(lower, q, f, s) && IsTail(lower, q, f, t)
    ensures s == t
  {
    KeyIsTail(lower, q, f, 0, s);
    KeyIsTail(lower, q, f, 0, t);
    KeyUnique(lower, q, f, 0, Head(0) + s, Head(0) + t);
    HeadCut(0, s, 0, t);
  }

  /** Equal keys mean equal texts, under whatever generations. */
  lemma {:induction false} SameKeySameText(lower: char -> char, q1: string, f1: Filters, g1: int,
                                           q2: string, f2: Filters, g2: int, s: string)
    requires IsKey(lower, q1, f1, g1, s) && IsKey(lower, q2, f2, g2, s)
    ensures SameText(lower, q1, f1, q2, f2)
  {
    var tail := TailExists(lower, q1, f1);
    SameGeneration(lower, q1, f1, g1, q2, f2, g2, s);
    KeyIsTail(lower, q1, f1, g1, tail);
    KeyUnique(lower, q1, f1, g1, s, Head(g1) + tail);
    KeyIsTail(lower, q2, f2, g2, tail);
  }

  /** The separators are not escaped, so the condition of `KeyInjective` cannot be dropped: every
    * request with two filters or more has the key of a request with one. */
  lemma {:induction false} SeparatorsMatter(lower: char -> char, q: string, f: Filters) returns (folded: Filters)
    requires |f| >= 2
    ensures |folded| == 1 && folded != f && SameText(lower, q, f, q, folded)
  {
    var tail := TailExists(lower, q, f);
    var keys :| SortedNames(keys, f) && tail == Normalize(lower, q) + Clauses(keys, f);
    assert |f.Keys| == |f|;
    var some := AnyOf(f.Keys);
    assert some in keys;
    var v := LooksLikeOne(keys, f);
    folded := map[keys[0] := v];
    ClausesOf(keys[0], folded);
    assert SortedNames([keys[0]], folded);
    assert |folded| == 1 && |f| >= 2;
  }

  /** However many filters there are, their clauses read like those of a single one. */
  lemma {:induction false} LooksLikeOne(keys: seq<string>, f: Filters) returns (v: string)
    requires keys != [] && forall k :: k in keys ==> k in f
    ensures Clauses(keys, f) == Clause(keys[0], v)
  {
    v := f[keys[0]] + Clauses(keys[1..], f);
    assert Clause(keys[0], f[keys[0]]) + Clauses(keys[1..], f) == Clause(keys[0], v);
  }

  lemma {:induction false} ClausesOf(k: string, f: Filters)
    requires k in f
    ensures Clauses([k], f) == Clause(k, f[k])
  {
    assert [k][1..] == [];
    assert Clause(k, f[k]) + "" == Clause(k, f[k]);
  }

  /** A separator inside a text whose front has none lies behind that front. */
  lemma {:induction false} BehindFront(n: string, x1: string, x: string, rest: string)
    requires Free(n, '|') && n + x1 == x + "|" + rest
    ensures |x| >= |n| && x1 == x[|n|..] + "|" + rest
  {
    var s := n + x1;
    assert s[|x|] == '|';
    assert forall i :: 0 <= i < |n| ==> s[i] == n[i];
    assert s == x + ("|" + rest);
    assert s[|n|..] == x1;
  }

  predicate Opens(y: string) {
    y == "" || y[0] == '|'
  }

  /** What stands between two separators of a well-formed text is one of its clauses. */
  lemma {:induction false} PieceIsClause(n: string, keys: seq<string>, filters: Filters, x: string, p: string,
                                         y: string) returns (k: string)
    requires Free(n, '|') && Free(p, '|') && Opens(y)
    requires forall k :: k in keys ==> k in filters && Free(k, '|') && Free(filters[k], '|')
    requires n + Clauses(keys, filters) == x + "|" + (p + y)
    ensures k in keys && k in filters && p == k + "=" + filters[k]
    decreases |keys|
  {
    BehindFront(n, Clauses(keys, filters), x, p + y);
    var rest := x[|n|..];
    var a := keys[0];
    var n' := a + "=" + filters[a];
    var more := Clauses(keys[1..], filters);
    assert Clauses(keys, filters) == "|" + (n' + more);
    ClausesStart(keys[1..], filters);
    JoinedFree(a, filters[a]);
    if rest == "" {
      AfterBar("", n' + more, p + y);
      ValueCut(n', more, p, y);
      k := a;
    } else {
      AfterBar(rest, n' + more, p + y);
      k := PieceIsClause(n', keys[1..], filters, rest[1..], p, y);
    }
  }

  lemma {:induction false} JoinedFree(k: string, v: string)
    requires Free(k, '|') && Free(v, '|')
    ensures Free(k + "=" + v, '|')
  {
    var s := k + "=" + v;
    assert s == (k + "=") + v && |k + "="| == |k| + 1;
    forall i | 0 <= i < |s| ensures s[i] != '|' {
      assert i < |k| ==> s[i] == k[i];
      assert i == |k| ==> s[i] == '=';
      assert i > |k| ==> s[i] == v[i - |k| - 1];
    }
  }

  lemma {:induction false} AfterBar(rest: string, a: string, b: string)
    requires "|" + a == rest + "|" + b
    ensures rest == "" ==> a == b
    ensures rest != "" ==> a == rest[1..] + "|" + b
  {
    var s := "|" + a;
    assert s[1..] == a;
    if rest == "" {
      assert s == "|" + b;
    } else {
      assert s[1..] == rest[1..] + "|" + b;
    }
  }

  /** The clause of a name stands between two separators. */
  lemma {:induction false} ClauseStands(keys: seq<string>, filters: Filters, k: string) returns (x: string, y: string)
    requires k in keys && forall k :: k in keys ==> k in filters
    ensures Clauses(keys, filters) == x + "|" + ((k + "=" + filters[k]) + y) && Opens(y)
    decreases |keys|
  {
    ClausesStart(keys[1..], filters);
    if keys[0] == k {
      x, y := "", Clauses(keys[1..], filters);
      assert Clause(k, filters[k]) + y == x + "|" + ((k + "=" + filters[k]) + y);
    } else {
      var x', y' := ClauseStands(keys[1..], filters, k);
      var c := Clause(keys[0], filters[keys[0]]);
      x, y := c + x', y';
      var p := (k + "=" + filters[k]) + y;
      assert c + (x' + "|" + p) == (c + x') + "|" + p;
    }
  }

  lemma {:induction false} SplitAtEquals(k1: string, v1: string, k2: string, v2: string)
    requires Free(k1, '=') && Free(k2, '=') && k1 + "=" + v1 == k2 + "=" + v2
    ensures k1 == k2 && v1 == v2
  {
    assert k1 + "=" + v1 == k1 + ['='] + v1 && k2 + "=" + v2 == k2 + ['='] + v2;
    CutFirst(k1, v1, k2, v2, '=');
  }

  /** A request without separators shares its key only with requests that agree on every plain
    * filter, whatever else those contain. */
  lemma {:induction false} SharedFilter(lower: char -> char, q1: string, f1: Filters, q2: string, f2: Filters,
                                        tail: string, k: string)
    requires forall c :: lower(c) == '|' ==> c == '|'
    requires WellFormed(q1, f1) && IsTail(lower, q1, f1, tail) && IsTail(lower, q2, f2, tail)
    requires k in f2 && Free(k, '|') && Free(k, '=') && Free(f2[k], '|')
    ensures k in f1 && f1[k] == f2[k]
  {
    var k1 :| SortedNames(k1, f1) && tail == Normalize(lower, q1) + Clauses(k1, f1);
    var k2 :| SortedNames(k2, f2) && tail == Normalize(lower, q2) + Clauses(k2, f2);
    NormalFree(lower, q1);
    SharedClause(Normalize(lower, q1), k1, f1, Normalize(lower, q2), k2, f2, k);
  }

  lemma {:induction false} SharedClause(n1: string, k1: seq<string>, f1: Filters, n2: string, k2: seq<string>,
                                        f2: Filters, k: string)
    requires Free(n1, '|') && forall k :: k in k1 ==> k in f1 && Free(k, '|') && Free(k, '=') && Free(f1[k], '|')
    requires (forall k :: k in k2 ==> k in f2) && n1 + Clauses(k1, f1) == n2 + Clauses(k2, f2)
    requires k in k2 && Free(k, '|') && Free(k, '=') && Free(f2[k], '|')
    ensures k in f1 && f1[k] == f2[k]
  {
    var x, y := ClauseStands(k2, f2, k);
    var p := k + "=" + f2[k];
    JoinedFree(k, f2[k]);
    assert n2 + (x + "|" + (p + y)) == (n2 + x) + "|" + (p + y);
    var found := PieceIsClause(n1, k1, f1, n2 + x, p, y);
    SplitAtEquals(k, f2[k], found, f1[found]);
  }
}
