/** Which requests have a key text that another tenant's request could have, read off the text. */
module Ambiguity {
  import opened Decimal
  import opened Sorting
  import opened CacheKey
  import opened Freshness
  import opened Staleness

  const TENANT: string := "tenant_id"

  ghost predicate IsNormal(lower: char -> char, n: string) {
    exists q :: q != "" && Normalize(lower, q) == n
  }

  /** A normalised query, with at most one filter in front of `name`. */
  ghost predicate Front(lower: char -> char, name: string, x: string) {
    IsNormal(lower, x) || exists n, k, v :: IsNormal(lower, n) && StrLess(k, name) && x == n + Clause(k, v)
  }

  /** At most one filter behind `name`. */
  ghost predicate Back(name: string, y: string) {
    y == "" || exists k, v :: StrLess(name, k) && y == Clause(k, v)
  }

  /** The clause of `name` with the value `v` stands in the text, between a possible front and a
    * possible back. */
  ghost predicate Stands(lower: char -> char, name: string, v: string, tail: string) {
    exists x, y :: Front(lower, name, x) && Back(name, y) && tail == x + (Clause(name, v) + y)
  }

  /** The text has the clause of another tenant in it. */
  ghost predicate Ambiguous(lower: char -> char, t: string, tail: string) {
    exists m :: Signed(m) != t && Stands(lower, TENANT, Signed(m), tail)
  }

  // ---- several filters look like one ----

  lemma {:induction false} NamesOfParts(a: seq<string>, b: seq<string>, f: Filters)
    requires forall k :: k in a + b ==> k in f
    ensures (forall k :: k in a ==> k in f) && (forall k :: k in b ==> k in f)
  {
    assert forall k :: k in a ==> k in a + b;
    assert forall k :: k in b ==> k in a + b;
  }

  lemma {:induction false} ClausesConcat(a: seq<string>, b: seq<string>, f: Filters)
    requires (forall k :: k in a + b ==> k in f) && (forall k :: k in a ==> k in f) && (forall k :: k in b ==> k in f)
    ensures Clauses(a + b, f) == Clauses(a, f) + Clauses(b, f)
    decreases |a|
  {
    if a == [] {
      assert a + b == b;
      assert "" + Clauses(b, f) == Clauses(b, f);
    } else {
      assert (a + b)[1..] == a[1..] + b && (a + b)[0] == a[0];
      ClausesConcat(a[1..], b, f);
      Regroup(Clause(a[0], f[a[0]]), Clauses(a[1..], f), Clauses(b, f));
    }
  }

  lemma {:induction false} FrontOf(lower: char -> char, name: string, n: string, keys: seq<string>, f: Filters)
    requires IsNormal(lower, n) && forall k :: k in keys ==> k in f && StrLess(k, name)
    ensures Front(lower, name, n + Clauses(keys, f))
  {
    if keys == [] {
      assert n + "" == n;
    } else {
      var v := LooksLikeOne(keys, f);
    }
  }

  lemma {:induction false} BackOf(name: string, keys: seq<string>, f: Filters)
    requires forall k :: k in keys ==> k in f && StrLess(name, k)
    ensures Back(name, Clauses(keys, f))
  {
    if keys != [] {
      var v := LooksLikeOne(keys, f);
    }
  }

  lemma {:induction false} ClausesAround(a: seq<string>, name: string, b: seq<string>, f: Filters)
    requires forall k :: k in a + ([name] + b) ==> k in f
    ensures (forall k :: k in a ==> k in f) && name in f && (forall k :: k in b ==> k in f)
    ensures Clauses(a + ([name] + b), f) == Clauses(a, f) + (Clause(name, f[name]) + Clauses(b, f))
  {
    NamesOfParts(a, [name] + b, f);
    NamesOfParts([name], b, f);
    ClausesConcat(a, [name] + b, f);
    ClausesConcat([name], b, f);
    assert name in [name];
    ClausesOf(name, f);
  }

  lemma {:induction false} TailStands(lower: char -> char, name: string, q: string, f: Filters, tail: string)
    requires q != "" && name in f && IsTail(lower, q, f, tail)
    ensures Stands(lower, name, f[name], tail)
  {
    var n := Normalize(lower, q);
    var keys :| SortedNames(keys, f) && tail == n + Clauses(keys, f);
    var a, b := NamesAround(keys, name);
    ClausesAround(a, name, b, f);
    FrontOf(lower, name, n, a, f);
    BackOf(name, b, f);
    Regroup(n, Clauses(a, f), Clause(name, f[name]) + Clauses(b, f));
  }

  lemma {:induction false} NamesAround(keys: seq<string>, name: string) returns (a: seq<string>, b: seq<string>)
    requires Increasing(keys, StrLess) && name in keys
    ensures keys == a + ([name] + b)
    ensures (forall k :: k in a ==> StrLess(k, name)) && (forall k :: k in b ==> StrLess(name, k))
  {
    var i :| 0 <= i < |keys| && keys[i] == name;
    a, b := keys[..i], keys[i + 1..];
  }

  lemma {:induction false} Regroup(n: string, a: string, b: string)
    ensures n + (a + b) == (n + a) + b
  {
  }

  // ---- and one is enough ----

  /** The names in front of `name` and behind it. */
  ghost predicate Around(a: seq<string>, name: string, b: seq<string>) {
    && |a| <= 1 && |b| <= 1
    && (forall k :: k in a ==> StrLess(k, name)) && (forall k :: k in b ==> StrLess(name, k))
  }

  lemma {:induction false} AroundIncreasing(a: seq<string>, name: string, b: seq<string>)
    requires Around(a, name, b)
    ensures Increasing(a + ([name] + b), StrLess)
  {
    if a != [] && b != [] {
      StrLessTransitive(a[0], name, b[0]);
      assert a == [a[0]] && b == [b[0]];
      assert a + ([name] + b) == [a[0], name, b[0]];
    } else if a != [] {
      assert a + ([name] + b) == [a[0], name];
    } else if b != [] {
      assert a + ([name] + b) == [name, b[0]];
    }
  }

  lemma {:induction false} Built(lower: char -> char, q: string, f: Filters, a: seq<string>, name: string,
                                 b: seq<string>)
    requires Around(a, name, b) && forall k :: k in f <==> k in a + ([name] + b)
    ensures (forall k :: k in a ==> k in f) && name in f && (forall k :: k in b ==> k in f)
    ensures IsTail(lower, q, f, (Normalize(lower, q) + Clauses(a, f)) + (Clause(name, f[name]) + Clauses(b, f)))
  {
    AroundIncreasing(a, name, b);
    ClausesAround(a, name, b, f);
    Regroup(Normalize(lower, q), Clauses(a, f), Clause(name, f[name]) + Clauses(b, f));
    assert SortedNames(a + ([name] + b), f);
  }

  function FiltersOf(a: seq<string>, u: string, name: string, id: string, b: seq<string>, v: string): Filters {
    map k | k in a + ([name] + b) :: if k == name then id else if k in a then u else v
  }

  lemma {:induction false} FiltersRead(a: seq<string>, u: string, name: string, id: string, b: seq<string>, v: string)
    requires Around(a, name, b)
    ensures var f := FiltersOf(a, u, name, id, b, v);
            && name in f && f[name] == id
            && (forall k :: k in a ==> k in f && f[k] == u) && (forall k :: k in b ==> k in f && f[k] == v)
  {
    forall k | k in b ensures k !in a && k != name {
      StrLessTotal(name, k);
    }
    forall k | k in a ensures k != name {
      StrLessTotal(k, name);
    }
    assert name in [name];
  }

  /** Any text in which the clause stands is the text of a request with that filter. */
  lemma {:induction false} StandsInTail(lower: char -> char, name: string, id: string, tail: string)
    returns (q: string, f: Filters)
    requires Stands(lower, name, id, tail)
    ensures q != "" && name in f && f[name] == id && IsTail(lower, q, f, tail)
  {
    var x, y :| Front(lower, name, x) && Back(name, y) && tail == x + (Clause(name, id) + y);
    var n, a: seq<string>, u: string := FrontParts(lower, name, x);
    var b: seq<string>, v: string := BackParts(name, y);
    f := FiltersOf(a, u, name, id, b, v);
    FiltersRead(a, u, name, id, b, v);
    q :| q != "" && Normalize(lower, q) == n;
    Built(lower, q, f, a, name, b);
    PartClauses(a, u, f);
    PartClauses(b, v, f);
  }

  function Part(a: seq<string>, u: string): string {
    if a == [] then "" else Clause(a[0], u)
  }

  lemma {:induction false} PartClauses(a: seq<string>, u: string, f: Filters)
    requires |a| <= 1 && forall k :: k in a ==> k in f && f[k] == u
    ensures Clauses(a, f) == Part(a, u)
  {
    if a != [] {
      ClausesOf(a[0], f);
      assert a == [a[0]];
    }
  }

  lemma {:induction false} FrontParts(lower: char -> char, name: string, x: string)
    returns (n: string, a: seq<string>, u: string)
    requires Front(lower, name, x)
    ensures IsNormal(lower, n) && |a| <= 1 && (forall k :: k in a ==> StrLess(k, name)) && x == n + Part(a, u)
  {
    if IsNormal(lower, x) {
      n, a, u := x, [], "";
    } else {
      var n', k, v :| IsNormal(lower, n') && StrLess(k, name) && x == n' + Clause(k, v);
      n, a, u := n', [k], v;
    }
  }

  lemma {:induction false} BackParts(name: string, y: string) returns (b: seq<string>, v: string)
    requires Back(name, y)
    ensures |b| <= 1 && (forall k :: k in b ==> StrLess(name, k)) && y == Part(b, v)
  {
    if y == "" {
      b, v := [], "";
    } else {
      var k, w :| StrLess(name, k) && y == Clause(k, w);
      b, v := [k], w;
    }
  }

  /** A request of another tenant that the indexer knows has the key text `tail`. */
  ghost predicate Foreseen(lower: char -> char, t: string, tail: string) {
    exists t2, q2, f2 :: IsId(t2) && t2 != t && q2 != "" && IsTail(lower, q2, ScopeFilters(f2, t2), tail)
  }

  lemma {:induction false} ForeseenExactly(lower: char -> char, t: string, tail: string)
    ensures Foreseen(lower, t, tail) <==> Ambiguous(lower, t, tail)
  {
    if Foreseen(lower, t, tail) {
      var t2, q2, f2 :| IsId(t2) && t2 != t && q2 != "" && IsTail(lower, q2, ScopeFilters(f2, t2), tail);
      IdIsPlain(t2);
      TailStands(lower, TENANT, q2, ScopeFilters(f2, t2), tail);
      OtherTenant(lower, t, t2, tail);
    }
    if Ambiguous(lower, t, tail) {
      var m :| Signed(m) != t && Stands(lower, TENANT, Signed(m), tail);
      var q, f := StandsInTail(lower, TENANT, Signed(m), tail);
      ScopedAlready(f, Signed(m));
      assert IsId(Signed(m));
    }
  }

  lemma {:induction false} OtherTenant(lower: char -> char, t: string, t2: string, tail: string)
    requires IsId(t2) && t2 != t && Stands(lower, TENANT, t2, tail)
    ensures Ambiguous(lower, t, tail)
  {
    var m :| Signed(m) == t2;
  }

  lemma {:induction false} ScopedAlready(f: Filters, id: string)
    requires TENANT in f && f[TENANT] == id
    ensures ScopeFilters(f, id) == f
  {
  }

  /** What a caller can read off its own key text, whatever is indexed and whatever others ask: with
    * a tenant and a working generation read, it is never answered from before a write unless the
    * clause of another tenant stands in the text. */
  lemma {:induction false} StaleNeedsAmbiguity(world: World, t: string, query: string, filters: Filters, tail: string)
    requires t != "" && query != "" && IsTail(world.lower, query, ScopeFilters(filters, t), tail)
    ensures CanBeStale(world, t, query, filters, true) ==> Ambiguous(world.lower, t, tail)
  {
    StaleExactly(world, t, query, filters, true);
    if t1, q1, f1 :| Feeds(world, t1, q1, f1, t, query, filters, true) {
      var other :| && IsTail(world.lower, query, ScopeFilters(filters, t), other)
                   && IsTail(world.lower, q1, ScopeFilters(f1, t1), other);
      TailUnique(world.lower, query, ScopeFilters(filters, t), tail, other);
      ForeseenExactly(world.lower, t, tail);
    }
  }
}
