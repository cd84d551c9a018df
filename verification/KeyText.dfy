/** The key text of an answer cache read character by character (internal/cache/cache.go), and the
  * requests that share one. */
module KeyText {
  import opened Decimal
  import opened Sorting
  import opened Texts
  import opened CacheKey

  /** Equal after lower-casing each character. */
  predicate SameLetters(lower: char -> char, a: string, b: string) {
    |a| == |b| && forall i :: 0 <= i < |a| ==> lower(a[i]) == lower(b[i])
  }

  /** The stretch between two cuts is the clause of the `i`-th name. */
  predicate ClauseAt(rest: string, names: seq<string>, filters: Filters, cuts: seq<nat>, i: nat) {
    && i < |names| && i + 1 < |cuts| && cuts[i] <= cuts[i + 1] <= |rest| && names[i] in filters
    && rest[cuts[i]..cuts[i + 1]] == "|" + names[i] + "=" + filters[names[i]]
  }

  /** Cut at `cuts`, the text spells out one clause for each of the names. */
  predicate Spells(rest: string, names: seq<string>, filters: Filters, cuts: seq<nat>) {
    && |cuts| == |names| + 1 && cuts[0] == 0 && cuts[|names|] == |rest|
    && forall i :: 0 <= i < |names| ==> ClauseAt(rest, names, filters, cuts, i)
  }

  // ---- reading the key text ----

  lemma {:induction false} ClausesSpell(names: seq<string>, filters: Filters) returns (cuts: seq<nat>)
    requires forall k :: k in names ==> k in filters
    ensures Spells(Clauses(names, filters), names, filters, cuts)
  {
    if names == [] {
      cuts := [0];
    } else {
      var later := ClausesSpell(names[1..], filters);
      cuts := Pushed(later, |Clause(names[0], filters[names[0]])|);
      assert names[0] in names;
      OneMoreClause(Clauses(names[1..], filters), names, filters, later);
    }
  }

  function Pushed(cuts: seq<nat>, width: nat): (r: seq<nat>)
    ensures |r| == |cuts| + 1 && r[0] == 0 && forall i :: 0 < i < |r| ==> r[i] == cuts[i - 1] + width
  {
    [0] + seq(|cuts|, i requires 0 <= i < |cuts| => cuts[i] + width)
  }

  lemma {:induction false} OneMoreClause(rest: string, names: seq<string>, filters: Filters, later: seq<nat>)
    requires names != [] && names[0] in filters && Spells(rest, names[1..], filters, later)
    ensures var first := Clause(names[0], filters[names[0]]);
            Spells(first + rest, names, filters, Pushed(later, |first|))
  {
    var first := Clause(names[0], filters[names[0]]);
    var cuts := Pushed(later, |first|);
    forall i | 0 <= i < |names| ensures ClauseAt(first + rest, names, filters, cuts, i) {
      if i > 0 {
        assert ClauseAt(rest, names[1..], filters, later, i - 1);
        BehindFirst(first, rest, later[i - 1], later[i]);
      } else {
        assert (first + rest)[0..|first|] == first;
      }
    }
  }

  lemma {:induction false} BehindFirst(first: string, rest: string, i: nat, j: nat)
    requires i <= j <= |rest|
    ensures (first + rest)[i + |first|..j + |first|] == rest[i..j]
  {
  }

  /** `s` begins with `head` and goes on with `core`, character by character through `lower`. */
  predicate BeginsWith(s: string, head: string, lower: char -> char, core: string) {
    && |s| >= |head| + |core| && s[..|head|] == head
    && forall i :: 0 <= i < |core| ==> s[|head| + i] == lower(core[i])
  }

  lemma {:induction false} BeginsSo(head: string, lower: char -> char, core: string, tail: string)
    ensures var s := head + (ToLower(lower, core) + tail);
            BeginsWith(s, head, lower, core) && s[|head| + |core|..] == tail
  {
  }

  /** The key text, character by character: the generation in decimal, the query without the spaces
    * around it and lower-cased, every other character of it kept, and then the filters by name. */
  lemma {:induction false} KeyReads(lower: char -> char, query: string, core: string, filters: Filters, gen: int,
                                    s: string) returns (names: seq<string>, cuts: seq<nat>)
    requires IsKey(lower, query, filters, gen, s) && HasCore(query, core)
    ensures BeginsWith(s, "g" + Signed(gen) + "|", lower, core)
    ensures Increasing(names, StrLess) && (forall k :: k in names <==> k in filters)
    ensures Spells(s[|"g" + Signed(gen) + "|"| + |core|..], names, filters, cuts)
  {
    names :| SortedNames(names, filters) && s == Text(lower, query, filters, gen, names);
    cuts := ClausesSpell(names, filters);
    TrimToCore(query, core);
    BeginsSo(Head(gen), lower, core, Clauses(names, filters));
  }

  // ---- which requests share a key ----

  lemma {:induction false} SameNormal(lower: char -> char, q1: string, c1: string, q2: string, c2: string)
    requires HasCore(q1, c1) && HasCore(q2, c2)
    ensures Normalize(lower, q1) == Normalize(lower, q2) <==> SameLetters(lower, c1, c2)
  {
    TrimToCore(q1, c1);
    TrimToCore(q2, c2);
    var a, b := ToLower(lower, c1), ToLower(lower, c2);
    assert |a| == |c1| && |b| == |c2|;
    if a == b {
      forall i | 0 <= i < |c1| ensures lower(c1[i]) == lower(c2[i]) {
        assert a[i] == b[i];
      }
    }
  }

  /** Requests without separators share a key exactly when their generations and filters are equal
    * and their queries agree, letter case and surrounding spaces aside. */
  lemma {:induction false} KeysMeetExactly(lower: char -> char, q1: string, c1: string, f1: Filters, g1: int,
                                           q2: string, c2: string, f2: Filters, g2: int)
    requires forall c :: lower(c) == '|' ==> c == '|'
    requires WellFormed(q1, f1) && WellFormed(q2, f2) && HasCore(q1, c1) && HasCore(q2, c2)
    ensures (exists s :: IsKey(lower, q1, f1, g1, s) && IsKey(lower, q2, f2, g2, s)) <==>
            g1 == g2 && f1 == f2 && SameLetters(lower, c1, c2)
  {
    SameNormal(lower, q1, c1, q2, c2);
    if s :| IsKey(lower, q1, f1, g1, s) && IsKey(lower, q2, f2, g2, s) {
      KeyInjective(lower, q1, f1, g1, q2, f2, g2, s);
    }
    if g1 == g2 && f1 == f2 && SameLetters(lower, c1, c2) {
      var tail := TailExists(lower, q1, f1);
      assert IsTail(lower, q2, f2, tail);
      KeyIsTail(lower, q1, f1, g1, tail);
      KeyIsTail(lower, q2, f2, g2, tail);
    }
  }
}
