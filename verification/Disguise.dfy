/** Requests that another tenant's cached answer reaches, for every pair of tenants and every query:
  * their filter values spell out the other tenant's clause. */
module Disguise {
  import opened Decimal
  import opened Sorting
  import opened Texts
  import opened CacheKey
  import opened Freshness
  import opened Staleness
  import opened Ambiguity

  /** A filter value that goes on with the clause of tenant `b`. */
  function Spelled(b: int): string {
    "1" + Clause(TENANT, Signed(b))
  }

  /** What stands between the query and that clause when tenant `a` filters by title. */
  function Between(a: int): string {
    Clause(TENANT, Signed(a)) + Clause("title", "1")
  }

  lemma {:induction false} SignedDiffer(a: int, b: int)
    requires a != b
    ensures Signed(a) != Signed(b) && IsId(Signed(a)) && IsId(Signed(b))
  {
    if Signed(a) == Signed(b) {
      SignedInjective(a, b);
    }
  }

  lemma {:induction false} FieldNames()
    ensures StrLess("category", TENANT) && StrLess(TENANT, "title")
    ensures "category" != TENANT && "title" != TENANT && "category" != "title"
  {
    StrLessTotal("category", TENANT);
    StrLessTotal(TENANT, "title");
    assert "category"[0] == 'c' && "title"[0] == 't';
  }

  lemma {:induction false} Continued(k: string, u: string, v: string)
    ensures Clause(k, u + v) == Clause(k, u) + v
  {
  }

  lemma {:induction false} Reassociate(n: string, a: string, b: string, c: string, d: string)
    ensures (n + a) + (b + (c + d)) == (n + (a + (b + c))) + (d + "")
  {
  }

  // ---- through a category ----

  /** The filters of the asking tenant, and of the one that stored the answer. */
  function Asked(b: int): Filters {
    map["category" := "1", "title" := Spelled(b)]
  }

  function StoredBy(a: int): Filters {
    map["category" := "1" + Between(a)]
  }

  lemma {:induction false} AskedTail(lower: char -> char, query: string, a: int, b: int)
    ensures IsTail(lower, query, ScopeFilters(Asked(b), Signed(a)),
                   (Normalize(lower, query) + Clause("category", "1")) +
                   (Clause(TENANT, Signed(a)) + Clause("title", Spelled(b))))
  {
    var f := ScopeFilters(Asked(b), Signed(a));
    FieldNames();
    ClausesOf("category", f);
    ClausesOf("title", f);
    Built(lower, query, f, ["category"], TENANT, ["title"]);
  }

  lemma {:induction false} StoredTail(lower: char -> char, query: string, a: int, b: int)
    ensures IsTail(lower, query, ScopeFilters(StoredBy(a), Signed(b)),
                   (Normalize(lower, query) + Clause("category", "1" + Between(a))) + (Clause(TENANT, Signed(b)) + ""))
  {
    var f := ScopeFilters(StoredBy(a), Signed(b));
    FieldNames();
    ClausesOf("category", f);
    Built(lower, query, f, ["category"], TENANT, []);
  }

  lemma {:induction false} SameReading(lower: char -> char, query: string, a: int, b: int)
    ensures SameText(lower, query, ScopeFilters(Asked(b), Signed(a)), query, ScopeFilters(StoredBy(a), Signed(b)))
  {
    AskedTail(lower, query, a, b);
    StoredTail(lower, query, a, b);
    Continued("title", "1", Clause(TENANT, Signed(b)));
    Continued("category", "1", Between(a));
    Reassociate(Normalize(lower, query), Clause("category", "1"), Clause(TENANT, Signed(a)), Clause("title", "1"),
                Clause(TENANT, Signed(b)));
  }

  /** With a tenant of its own and a working generation read, a request for anything can still be
    * answered from before a write, as soon as one document of another tenant has a category that
    * spells out the asking tenant. */
  lemma {:induction false} DisguisedRequestIsStale(world: World, query: string, a: int, b: int)
    requires query != "" && a != b && world.found(query, ScopeFilters(StoredBy(a), Signed(b)))
    ensures CanBeStale(world, Signed(a), query, Asked(b), true)
  {
    SignedDiffer(a, b);
    SameReading(world.lower, query, a, b);
    IdIsPlain(Signed(a));
    assert Feeds(world, Signed(b), query, StoredBy(a), Signed(a), query, Asked(b), true);
    FedMakesStale(world, Signed(b), query, StoredBy(a), Signed(a), query, Asked(b), true);
  }

  // ---- through the query ----

  /** The lower-casing leaves what a disguise is made of alone. */
  ghost predicate KeepsText(lower: char -> char) {
    forall c :: 'a' <= c <= 'z' || '0' <= c <= '9' || c == '|' || c == '=' || c == '_' || c == '-' ==> lower(c) == c
  }

  lemma {:induction false} TrimLeftStarts(s: string)
    ensures TrimLeft(s) == "" || !IsSpace(TrimLeft(s)[0])
  {
    if s != "" && IsSpace(s[0]) {
      TrimLeftStarts(s[1..]);
    }
  }

  lemma {:induction false} TrimRightStarts(s: string)
    requires s == "" || !IsSpace(s[0])
    ensures TrimRight(s) == "" || !IsSpace(TrimRight(s)[0])
  {
    if s != "" && IsSpace(s[|s| - 1]) {
      TrimRightStarts(s[..|s| - 1]);
    }
  }

  /** Appending something that begins and ends without space leaves nothing to trim. */
  lemma {:induction false} TrimmedTogether(q: string, u: string)
    requires u != "" && !IsSpace(u[0]) && !IsSpace(u[|u| - 1])
    ensures TrimSpace(TrimSpace(q) + u) == TrimSpace(q) + u
  {
    var n := TrimSpace(q);
    TrimLeftStarts(q);
    TrimRightStarts(TrimLeft(q));
    assert (n + u)[0] == if n == "" then u[0] else n[0];
    assert (n + u)[|n + u| - 1] == u[|u| - 1];
  }

  lemma {:induction false} LoweredTogether(lower: char -> char, n: string, u: string)
    requires forall i :: 0 <= i < |u| ==> lower(u[i]) == u[i]
    ensures ToLower(lower, n + u) == ToLower(lower, n) + u
  {
  }

  lemma {:induction false} SignedKept(lower: char -> char, n: int)
    requires KeepsText(lower)
    ensures forall i :: 0 <= i < |Signed(n)| ==> lower(Signed(n)[i]) == Signed(n)[i]
  {
    forall i | 0 <= i < |Signed(n)| ensures Signed(n)[i] == '-' || IsDigit(Signed(n)[i]) {
    }
  }

  lemma {:induction false} ClauseKept(lower: char -> char, k: string, v: string)
    requires KeepsText(lower) && (forall i :: 0 <= i < |k| ==> lower(k[i]) == k[i])
    requires forall i :: 0 <= i < |v| ==> lower(v[i]) == v[i]
    ensures forall i :: 0 <= i < |Clause(k, v)| ==> lower(Clause(k, v)[i]) == Clause(k, v)[i]
  {
    var s := Clause(k, v);
    forall i | 0 <= i < |s| ensures lower(s[i]) == s[i] {
      assert i == 0 ==> s[i] == '|';
      assert 0 < i <= |k| ==> s[i] == k[i - 1];
      assert i == |k| + 1 ==> s[i] == '=';
      assert i > |k| + 1 ==> s[i] == v[i - |k| - 2];
    }
  }

  lemma {:induction false} BetweenKept(lower: char -> char, a: int)
    requires KeepsText(lower)
    ensures forall i :: 0 <= i < |Between(a)| ==> lower(Between(a)[i]) == Between(a)[i]
  {
    SignedKept(lower, a);
    ClauseKept(lower, TENANT, Signed(a));
    ClauseKept(lower, "title", "1");
  }

  lemma {:induction false} BetweenEnds(a: int)
    ensures var u := Between(a); u != "" && !IsSpace(u[0]) && !IsSpace(u[|u| - 1])
  {
    var u, v := Clause(TENANT, Signed(a)), Clause("title", "1");
    assert v[|v| - 1] == '1';
    assert u[0] == '|';
  }

  /** The other tenant's query: the same, with the asking tenant spelled out behind it. */
  function QueryOf(query: string, a: int): string {
    TrimSpace(query) + Between(a)
  }

  lemma {:induction false} QueryNormal(lower: char -> char, query: string, a: int)
    requires KeepsText(lower)
    ensures Normalize(lower, QueryOf(query, a)) == Normalize(lower, query) + Between(a)
  {
    BetweenEnds(a);
    BetweenKept(lower, a);
    TrimmedTogether(query, Between(a));
    LoweredTogether(lower, TrimSpace(query), Between(a));
  }

  lemma {:induction false} TitleTail(lower: char -> char, query: string, a: int, b: int)
    ensures IsTail(lower, query, ScopeFilters(map["title" := Spelled(b)], Signed(a)),
                   (Normalize(lower, query) + "") + (Clause(TENANT, Signed(a)) + Clause("title", Spelled(b))))
  {
    var f := ScopeFilters(map["title" := Spelled(b)], Signed(a));
    FieldNames();
    ClausesOf("title", f);
    Built(lower, query, f, [], TENANT, ["title"]);
  }

  lemma {:induction false} PlainTail(lower: char -> char, q: string, b: int)
    ensures IsTail(lower, q, ScopeFilters(map[], Signed(b)),
                   (Normalize(lower, q) + "") + (Clause(TENANT, Signed(b)) + ""))
  {
    Built(lower, q, ScopeFilters(map[], Signed(b)), [], TENANT, []);
  }

  lemma {:induction false} Shifted(n: string, b: string, c: string, d: string)
    ensures (n + "") + (b + (c + d)) == ((n + (b + c)) + "") + (d + "")
  {
  }

  lemma {:induction false} SameQueryReading(lower: char -> char, query: string, a: int, b: int)
    requires KeepsText(lower)
    ensures SameText(lower, query, ScopeFilters(map["title" := Spelled(b)], Signed(a)),
                     QueryOf(query, a), ScopeFilters(map[], Signed(b)))
  {
    TitleTail(lower, query, a, b);
    PlainTail(lower, QueryOf(query, a), b);
    QueryNormal(lower, query, a);
    Continued("title", "1", Clause(TENANT, Signed(b)));
    Shifted(Normalize(lower, query), Clause(TENANT, Signed(a)), Clause("title", "1"), Clause(TENANT, Signed(b)));
  }

  /** The same, without any filter on the storing side: it is enough that the other tenant's documents
    * answer a query that spells out the asking tenant. */
  lemma {:induction false} DisguisedQueryIsStale(world: World, query: string, a: int, b: int)
    requires query != "" && a != b && KeepsText(world.lower)
    requires world.found(QueryOf(query, a), ScopeFilters(map[], Signed(b)))
    ensures CanBeStale(world, Signed(a), query, map["title" := Spelled(b)], true)
  {
    SignedDiffer(a, b);
    SameQueryReading(world.lower, query, a, b);
    BetweenEnds(a);
    IdIsPlain(Signed(a));
    assert Feeds(world, Signed(b), QueryOf(query, a), map[], Signed(a), query, map["title" := Spelled(b)], true);
    FedMakesStale(world, Signed(b), QueryOf(query, a), map[], Signed(a), query, map["title" := Spelled(b)], true);
  }
}
