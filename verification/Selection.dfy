/** Which sentences an extractive answer consists of: the ranking and the choice of `Generate` in
  * internal/rag/rag.go, told by the places the sentences stand at. */
module Selection {
  import opened Sentences
  import opened Tokens
  import opened Sorting
  import opened Extractive
  import opened Citations

  /** The `sentence`-th sentence of the `source`-th source. */
  datatype Place = Place(source: nat, sentence: nat)

  predicate IsPlace(sources: seq<Source>, p: Place) {
    p.source < |sources| && p.sentence < |SplitSentences(sources[p.source].text)|
  }

  function TextAt(sources: seq<Source>, p: Place): string
    requires IsPlace(sources, p)
  {
    SplitSentences(sources[p.source].text)[p.sentence]
  }

  /** How many content tokens the sentence shares with the query. */
  function Common(query: string, sources: seq<Source>, p: Place): nat
    requires IsPlace(sources, p)
  {
    |ContentTokens(query) * ContentTokens(TextAt(sources, p))|
  }

  predicate Earlier(p: Place, q: Place) {
    p.source < q.source || (p.source == q.source && p.sentence < q.sentence)
  }

  /** The ranking of sentences: more tokens in common with the query, then the lesser marker, then
    * the earlier place. */
  predicate Outranks(query: string, sources: seq<Source>, p: Place, q: Place) {
    && IsPlace(sources, p) && IsPlace(sources, q)
    && var m, n := Common(query, sources, p), Common(query, sources, q);
       var a, b := sources[p.source].marker, sources[q.source].marker;
       m > n || (m == n && (StrLess(a, b) || (a == b && Earlier(p, q))))
  }

  /** `c` is the sentence at `p`, under the name of its source. */
  ghost predicate Quotes(query: string, sources: seq<Source>, p: Place, c: Candidate) {
    && IsPlace(sources, p) && c.text == TextAt(sources, p) && c.marker == sources[p.source].marker
    && c.docId == sources[p.source].docId && c.origin == sources[p.source].origin
    && c.score == Common(query, sources, p)
  }

  // ---- the candidates ----

  /** `at` lists where the candidates stand, in order. */
  ghost predicate Stands(query: string, sources: seq<Source>, cands: seq<Candidate>, at: seq<Place>) {
    && |at| == |cands|
    && (forall i :: 0 <= i < |at| ==> Quotes(query, sources, at[i], cands[i]) && cands[i].score > 0)
    && (forall i, j :: 0 <= i < j < |at| ==> Earlier(at[i], at[j]))
  }

  ghost predicate Complete(query: string, sources: seq<Source>, at: seq<Place>, sentences: nat) {
    forall p {:trigger IsPlace(sources, p)} ::
      IsPlace(sources, p) && (p.source < |sources| - 1 || p.sentence < sentences) && Common(query, sources, p) > 0
      ==> p in at
  }

  /** `at` stays ahead of the `sentences`-th sentence of the last source. */
  ghost predicate Within(sources: seq<Source>, at: seq<Place>, sentences: nat) {
    forall p :: p in at ==> p.source < |sources| - 1 || (p.source == |sources| - 1 && p.sentence < sentences)
  }

  lemma {:induction false} StandsHere(query: string, sources: seq<Source>, cands: seq<Candidate>, at: seq<Place>,
                                      here: Place, c: Candidate)
    requires Stands(query, sources, cands, at) && Quotes(query, sources, here, c) && c.score > 0
    requires here.source == |sources| - 1 && Within(sources, at, here.sentence)
    ensures Stands(query, sources, cands + [c], at + [here])
  {
    assert forall i :: 0 <= i < |at| ==> at[i] in at;
  }

  /** One more sentence of the last source. */
  lemma {:induction false} NextSentence(query: string, sources: seq<Source>, cands: seq<Candidate>, at: seq<Place>,
                                        n: nat) returns (cands': seq<Candidate>, at': seq<Place>)
    requires sources != [] && n < |SplitSentences(sources[|sources| - 1].text)|
    requires Stands(query, sources, cands, at) && Complete(query, sources, at, n) && Within(sources, at, n)
    ensures var src := sources[|sources| - 1];
            var c := CandidateOf(ContentTokens(query), src, SplitSentences(src.text)[n]);
            cands' == cands + (if c.score == 0 then [] else [c])
    ensures Stands(query, sources, cands', at') && Complete(query, sources, at', n + 1)
    ensures Within(sources, at', n + 1)
  {
    var src := sources[|sources| - 1];
    var c := CandidateOf(ContentTokens(query), src, SplitSentences(src.text)[n]);
    var here := Place(|sources| - 1, n);
    assert IsPlace(sources, here) && Quotes(query, sources, here, c);
    if c.score == 0 {
      cands', at' := cands + [], at;
      assert cands' == cands;
    } else {
      cands', at' := cands + [c], at + [here];
      StandsHere(query, sources, cands, at, here, c);
    }
    OneMoreComplete(query, sources, at, at', n);
  }

  lemma {:induction false} OneMoreComplete(query: string, sources: seq<Source>, at: seq<Place>, at': seq<Place>, n: nat)
    requires sources != [] && Complete(query, sources, at, n) && forall p :: p in at ==> p in at'
    requires var here := Place(|sources| - 1, n);
             IsPlace(sources, here) && Common(query, sources, here) > 0 ==> here in at'
    ensures Complete(query, sources, at', n + 1)
  {
    forall p {:trigger IsPlace(sources, p)} | IsPlace(sources, p) && Common(query, sources, p) > 0
                                              && (p.source < |sources| - 1 || p.sentence < n + 1)
      ensures p in at'
    {
      assert p.source == |sources| - 1 && p.sentence == n ==> p == Place(|sources| - 1, n);
    }
  }

  lemma {:induction false} LastSource(query: string, sources: seq<Source>, cands: seq<Candidate>, at: seq<Place>,
                                      n: nat) returns (at': seq<Place>)
    requires sources != [] && n <= |SplitSentences(sources[|sources| - 1].text)|
    requires Stands(query, sources, cands, at) && Complete(query, sources, at, 0)
    requires Within(sources, at, 0)
    ensures var src := sources[|sources| - 1];
            Stands(query, sources, cands + FromSentences(ContentTokens(query), src, SplitSentences(src.text)[..n]), at')
    ensures Complete(query, sources, at', n) && Within(sources, at', n)
  {
    var src := sources[|sources| - 1];
    var sentences := SplitSentences(src.text);
    if n == 0 {
      at' := at;
      assert cands + FromSentences(ContentTokens(query), src, sentences[..0]) == cands;
    } else {
      var before := LastSource(query, sources, cands, at, n - 1);
      var front := FromSentences(ContentTokens(query), src, sentences[..n - 1]);
      var more;
      more, at' := NextSentence(query, sources, cands + front, before, n - 1);
      assert sentences[..n][..n - 1] == sentences[..n - 1];
      assert more == cands + FromSentences(ContentTokens(query), src, sentences[..n]);
    }
  }

  lemma {:induction false} OneMoreSource(query: string, sources: seq<Source>, cands: seq<Candidate>, at: seq<Place>)
    requires sources != [] && Stands(query, sources[..|sources| - 1], cands, at)
    requires forall p :: IsPlace(sources[..|sources| - 1], p) && Common(query, sources[..|sources| - 1], p) > 0 ==>
               p in at
    ensures Stands(query, sources, cands, at) && Complete(query, sources, at, 0) && Within(sources, at, 0)
  {
    var front := sources[..|sources| - 1];
    forall i | 0 <= i < |at| ensures Quotes(query, sources, at[i], cands[i]) && at[i].source < |front| {
      assert Quotes(query, front, at[i], cands[i]);
    }
    forall p | IsPlace(sources, p) && p.source < |front| && Common(query, sources, p) > 0 ensures p in at {
      assert IsPlace(front, p) && Common(query, front, p) == Common(query, sources, p);
    }
  }

  /** The candidates are the sentences that share a token with the query, in source order. */
  lemma {:induction false} CandidatesStand(query: string, sources: seq<Source>) returns (at: seq<Place>)
    ensures Stands(query, sources, Candidates(ContentTokens(query), sources), at)
    ensures forall p :: IsPlace(sources, p) && Common(query, sources, p) > 0 ==> p in at
  {
    if sources == [] {
      at := [];
    } else {
      var front, src := sources[..|sources| - 1], sources[|sources| - 1];
      var before := CandidatesStand(query, front);
      var cands, n := Candidates(ContentTokens(query), front), |SplitSentences(src.text)|;
      OneMoreSource(query, sources, cands, before);
      at := LastSource(query, sources, cands, before, n);
      assert SplitSentences(src.text)[..n] == SplitSentences(src.text);
    }
  }

  // ---- the ranking ----

  lemma {:induction false} BetterOrder()
    ensures StrictWeak(Better)
  {
    StrLessOrder();
  }

  /** `ranked` lists where the candidates of `cands` stand, in the order of `Outranks`. */
  ghost predicate Ranks(query: string, sources: seq<Source>, cands: seq<Candidate>, ranked: seq<Place>) {
    && |ranked| == |cands|
    && (forall i :: 0 <= i < |ranked| ==> Quotes(query, sources, ranked[i], cands[i]) && cands[i].score > 0)
    && forall i, j :: 0 <= i < j < |ranked| ==> Outranks(query, sources, ranked[i], ranked[j])
  }

  lemma {:induction false} BetterOutranks(query: string, sources: seq<Source>, p: Place, q: Place, c: Candidate,
                                          d: Candidate)
    requires Quotes(query, sources, p, c) && Quotes(query, sources, q, d)
    requires Better(c, d) || (!Better(d, c) && Earlier(p, q))
    ensures Outranks(query, sources, p, q)
  {
    StrLessTotal(c.marker, d.marker);
  }

  function Reordered(at: seq<Place>, perm: seq<nat>): (r: seq<Place>)
    requires forall i :: 0 <= i < |perm| ==> perm[i] < |at|
    ensures |r| == |perm| && forall i :: 0 <= i < |r| ==> r[i] == at[perm[i]]
  {
    seq(|perm|, i requires 0 <= i < |perm| => at[perm[i]])
  }

  lemma {:induction false} ReorderedHas(at: seq<Place>, perm: seq<nat>, p: Place)
    requires Arranges(perm, |at|) && p in at
    ensures p in Reordered(at, perm)
  {
    var k :| 0 <= k < |at| && at[k] == p;
    assert k in perm;
    var i :| 0 <= i < |perm| && perm[i] == k;
    assert Reordered(at, perm)[i] == p;
  }

  /** The sorted candidates come in the order of `Outranks`. */
  lemma {:induction false} RankedPlaces(query: string, sources: seq<Source>, cands: seq<Candidate>, at: seq<Place>)
    returns (ranked: seq<Place>)
    requires Stands(query, sources, cands, at)
    ensures Ranks(query, sources, Sort(cands, Better), ranked) && forall p :: p in at ==> p in ranked
  {
    BetterOrder();
    var perm := SortIsStable(cands, Better);
    ranked := Reordered(at, perm);
    forall p | p in at ensures p in ranked {
      ReorderedHas(at, perm, p);
    }
    forall i, j | 0 <= i < j < |ranked| ensures Outranks(query, sources, ranked[i], ranked[j]) {
      var c, d := cands[perm[i]], cands[perm[j]];
      assert Quotes(query, sources, ranked[i], c) && Quotes(query, sources, ranked[j], d);
      BetterOutranks(query, sources, ranked[i], ranked[j], c, d);
    }
  }

  // ---- the choice ----

  /** Why the candidate at `j` was not picked: its text had been seen, or there was no room left. */
  ghost predicate PassedOver(cands: seq<Candidate>, seen: set<string>, room: nat, at: seq<nat>, j: nat) {
    j < |cands| && (cands[j].text in seen || Repeats(cands, at, j) || (|at| == room && AllBefore(at, j)))
  }

  ghost predicate Repeats(cands: seq<Candidate>, at: seq<nat>, j: nat)
    requires j < |cands|
  {
    exists i :: 0 <= i < |at| && at[i] < j && cands[at[i]].text == cands[j].text
  }

  predicate AllBefore(at: seq<nat>, j: nat) {
    forall i :: 0 <= i < |at| ==> at[i] < j
  }

  /** `at` are the places `Pick` takes its candidates from. */
  ghost predicate Picks(cands: seq<Candidate>, seen: set<string>, room: nat, at: seq<nat>) {
    && |at| == |Pick(cands, seen, room)| && (forall i :: 0 <= i < |at| ==> at[i] < |cands|)
    && (forall i :: 0 <= i < |at| ==> Pick(cands, seen, room)[i] == cands[at[i]] && cands[at[i]].text !in seen)
    && (forall i, j :: 0 <= i < j < |at| ==> at[i] < at[j] && cands[at[i]].text != cands[at[j]].text)
    && forall j :: 0 <= j < |cands| && j !in at ==> PassedOver(cands, seen, room, at, j)
  }

  lemma {:induction false} PickPlaces(cands: seq<Candidate>, seen: set<string>, room: nat) returns (at: seq<nat>)
    ensures Picks(cands, seen, room, at)
  {
    if cands == [] || room == 0 {
      at := [];
    } else if cands[0].text in seen {
      var later := PickPlaces(cands[1..], seen, room);
      at := Shifted(later);
      SkipFirst(cands, seen, room, later);
    } else {
      var later := PickPlaces(cands[1..], seen + {cands[0].text}, room - 1);
      at := [0] + Shifted(later);
      TakeFirst(cands, seen, room, later);
    }
  }

  lemma {:induction false} ShiftedHas(later: seq<nat>, k: nat)
    ensures k in later ==> k + 1 in Shifted(later)
  {
    if k in later {
      var i :| 0 <= i < |later| && later[i] == k;
      assert Shifted(later)[i] == k + 1;
    }
  }

  lemma {:induction false} RepeatsLater(cands: seq<Candidate>, later: seq<nat>, j: nat)
    requires 0 < j < |cands| && Repeats(cands[1..], later, j - 1)
    ensures Repeats(cands, Shifted(later), j) && Repeats(cands, [0] + Shifted(later), j)
  {
    var i :| 0 <= i < |later| && later[i] < j - 1 && cands[1..][later[i]].text == cands[1..][j - 1].text;
    assert Shifted(later)[i] == later[i] + 1 && ([0] + Shifted(later))[i + 1] == later[i] + 1;
  }

  lemma {:induction false} AllBeforeLater(later: seq<nat>, j: nat)
    requires j > 0 && AllBefore(later, j - 1)
    ensures AllBefore(Shifted(later), j) && AllBefore([0] + Shifted(later), j)
  {
  }

  lemma {:induction false} SkipFirst(cands: seq<Candidate>, seen: set<string>, room: nat, later: seq<nat>)
    requires cands != [] && room > 0 && cands[0].text in seen && Picks(cands[1..], seen, room, later)
    ensures Picks(cands, seen, room, Shifted(later))
  {
    forall j | 0 <= j < |cands| && j !in Shifted(later) ensures PassedOver(cands, seen, room, Shifted(later), j) {
      if j > 0 {
        ShiftedHas(later, j - 1);
        SkippedPassesOver(cands, seen, room, later, j);
      }
    }
  }

  lemma {:induction false} SkippedPassesOver(cands: seq<Candidate>, seen: set<string>, room: nat, later: seq<nat>,
                                             j: nat)
    requires 0 < j < |cands| && PassedOver(cands[1..], seen, room, later, j - 1)
    ensures PassedOver(cands, seen, room, Shifted(later), j)
  {
    if Repeats(cands[1..], later, j - 1) {
      RepeatsLater(cands, later, j);
    } else if AllBefore(later, j - 1) {
      AllBeforeLater(later, j);
    }
  }

  lemma {:induction false} TakenPassesOver(cands: seq<Candidate>, seen: set<string>, room: nat, later: seq<nat>, j: nat)
    requires room > 0 && 0 < j < |cands|
    requires PassedOver(cands[1..], seen + {cands[0].text}, room - 1, later, j - 1)
    ensures PassedOver(cands, seen, room, [0] + Shifted(later), j)
  {
    if Repeats(cands[1..], later, j - 1) {
      RepeatsLater(cands, later, j);
    } else if AllBefore(later, j - 1) {
      AllBeforeLater(later, j);
    }
    assert ([0] + Shifted(later))[0] == 0;
  }

  lemma {:induction false} TakeFirst(cands: seq<Candidate>, seen: set<string>, room: nat, later: seq<nat>)
    requires cands != [] && room > 0 && cands[0].text !in seen
    requires Picks(cands[1..], seen + {cands[0].text}, room - 1, later)
    ensures Picks(cands, seen, room, [0] + Shifted(later))
  {
    var at := [0] + Shifted(later);
    assert forall i :: 1 <= i < |at| ==> at[i] == later[i - 1] + 1;
    forall j | 0 <= j < |cands| && j !in at ensures PassedOver(cands, seen, room, at, j) {
      assert at[0] == 0 && j != 0;
      ShiftedHas(later, j - 1);
      TakenPassesOver(cands, seen, room, later, j);
    }
  }

  // ---- what an answer quotes ----

  /** `places` are the sentences of the answer: at most three different texts in the order of
    * `Outranks`, each sharing a token with the query; a sentence that shares one and is left out
    * repeats a text that outranks it, or ranks behind three. */
  ghost predicate BestPlaces(query: string, sources: seq<Source>, places: seq<Place>) {
    && |places| <= 3
    && (forall i :: 0 <= i < |places| ==> IsPlace(sources, places[i]) && Common(query, sources, places[i]) > 0)
    && (forall i, j :: 0 <= i < j < |places| ==> Outranks(query, sources, places[i], places[j])
                                                 && TextAt(sources, places[i]) != TextAt(sources, places[j]))
    && forall p :: IsPlace(sources, p) && Common(query, sources, p) > 0 && p !in places ==>
         Beaten(query, sources, places, p)
  }

  ghost predicate Beaten(query: string, sources: seq<Source>, places: seq<Place>, p: Place) {
    || (exists i :: 0 <= i < |places| && Outranks(query, sources, places[i], p)
                    && TextAt(sources, places[i]) == TextAt(sources, p))
    || (|places| == 3 && forall i :: 0 <= i < |places| ==> Outranks(query, sources, places[i], p))
  }

  /** The chosen sentences are the best ones, under the names of their sources. */
  lemma {:induction false} ChosenAreBest(query: string, sources: seq<Source>) returns (places: seq<Place>)
    ensures BestPlaces(query, sources, places) && |places| == |Chosen(query, sources)|
    ensures forall i :: 0 <= i < |places| ==> Quotes(query, sources, places[i], Chosen(query, sources)[i])
  {
    var cands := Candidates(ContentTokens(query), sources);
    var stand := CandidatesStand(query, sources);
    var ranked := RankedPlaces(query, sources, cands, stand);
    var sorted := Sort(cands, Better);
    var at := PickPlaces(sorted, {}, 3);
    places := At(ranked, at);
    PickedAreBest(query, sources, sorted, ranked, at);
  }

  lemma {:induction false} PickedAreBest(query: string, sources: seq<Source>, sorted: seq<Candidate>,
                                         ranked: seq<Place>, at: seq<nat>)
    requires Ranks(query, sources, sorted, ranked) && Picks(sorted, {}, 3, at)
    requires forall p :: IsPlace(sources, p) && Common(query, sources, p) > 0 ==> p in ranked
    ensures BestPlaces(query, sources, At(ranked, at))
    ensures forall i :: 0 <= i < |at| ==> Quotes(query, sources, At(ranked, at)[i], Pick(sorted, {}, 3)[i])
  {
    var places := At(ranked, at);
    forall p | IsPlace(sources, p) && Common(query, sources, p) > 0 && p !in places
      ensures Beaten(query, sources, places, p)
    {
      LeftOut(query, sources, sorted, ranked, at, p);
    }
    PickedInOrder(query, sources, sorted, ranked, at);
  }

  function At(ranked: seq<Place>, at: seq<nat>): seq<Place>
    requires forall i :: 0 <= i < |at| ==> at[i] < |ranked|
  {
    seq(|at|, i requires 0 <= i < |at| => ranked[at[i]])
  }

  lemma {:induction false} AtHas(ranked: seq<Place>, at: seq<nat>, j: nat)
    requires j < |ranked| && forall i :: 0 <= i < |at| ==> at[i] < |ranked|
    ensures j in at ==> ranked[j] in At(ranked, at)
  {
    if j in at {
      var i :| 0 <= i < |at| && at[i] == j;
      assert At(ranked, at)[i] == ranked[j];
    }
  }

  lemma {:induction false} PickedInOrder(query: string, sources: seq<Source>, sorted: seq<Candidate>,
                                         ranked: seq<Place>, at: seq<nat>)
    requires Ranks(query, sources, sorted, ranked) && Picks(sorted, {}, 3, at)
    ensures var places := At(ranked, at);
            && (forall i :: 0 <= i < |places| ==> Quotes(query, sources, places[i], Pick(sorted, {}, 3)[i])
                                                  && Common(query, sources, places[i]) > 0)
            && forall i, j :: 0 <= i < j < |places| ==>
                 Outranks(query, sources, places[i], places[j])
                 && TextAt(sources, places[i]) != TextAt(sources, places[j])
  {
    forall i | 0 <= i < |at|
      ensures Quotes(query, sources, ranked[at[i]], Pick(sorted, {}, 3)[i])
      ensures Common(query, sources, ranked[at[i]]) > 0
    {
      assert Quotes(query, sources, ranked[at[i]], sorted[at[i]]);
    }
  }

  lemma {:induction false} LeftOut(query: string, sources: seq<Source>, sorted: seq<Candidate>, ranked: seq<Place>,
                                   at: seq<nat>, p: Place)
    requires Ranks(query, sources, sorted, ranked) && Picks(sorted, {}, 3, at) && p in ranked && p !in At(ranked, at)
    ensures Beaten(query, sources, At(ranked, at), p)
  {
    var places := At(ranked, at);
    var j: nat :| j < |ranked| && ranked[j] == p;
    AtHas(ranked, at, j);
    assert PassedOver(sorted, {}, 3, at, j);
    assert Quotes(query, sources, p, sorted[j]);
    if i :| 0 <= i < |at| && at[i] < j && sorted[at[i]].text == sorted[j].text {
      assert Quotes(query, sources, ranked[at[i]], sorted[at[i]]);
      assert places[i] == ranked[at[i]];
    }
  }

  // ---- there is one such choice ----

  lemma {:induction false} OutranksTotal(query: string, sources: seq<Source>, p: Place, q: Place)
    requires IsPlace(sources, p) && IsPlace(sources, q)
    ensures Outranks(query, sources, p, q) ==> !Outranks(query, sources, q, p)
    ensures p != q ==> Outranks(query, sources, p, q) || Outranks(query, sources, q, p)
  {
    StrLessTotal(sources[p.source].marker, sources[q.source].marker);
  }

  lemma {:induction false} OutranksTransitive(query: string, sources: seq<Source>, p: Place, q: Place, r: Place)
    requires Outranks(query, sources, p, q) && Outranks(query, sources, q, r)
    ensures Outranks(query, sources, p, r)
  {
    var a, b, c := sources[p.source].marker, sources[q.source].marker, sources[r.source].marker;
    if StrLess(a, b) && StrLess(b, c) {
      StrLessTransitive(a, b, c);
    }
  }

  /** `BestPlaces` for any kind of things. */
  ghost predicate BestOf<T(!new)>(fit: T -> bool, ahead: (T, T) -> bool, alike: (T, T) -> bool, room: nat, s: seq<T>) {
    && |s| <= room && (forall i :: 0 <= i < |s| ==> fit(s[i]))
    && (forall i, j :: 0 <= i < j < |s| ==> ahead(s[i], s[j]) && !alike(s[i], s[j]))
    && forall p :: fit(p) && p !in s ==> Dropped(ahead, alike, room, s, p)
  }

  ghost predicate Dropped<T>(ahead: (T, T) -> bool, alike: (T, T) -> bool, room: nat, s: seq<T>, p: T) {
    || (exists i :: 0 <= i < |s| && ahead(s[i], p) && alike(s[i], p))
    || (|s| == room && forall i :: 0 <= i < |s| ==> ahead(s[i], p))
  }

  /** A strict total order on the fit ones. */
  ghost predicate Orders<T(!new)>(fit: T -> bool, ahead: (T, T) -> bool) {
    && (forall x, y :: ahead(x, y) ==> !ahead(y, x))
    && (forall x, y, z :: ahead(x, y) && ahead(y, z) ==> ahead(x, z))
    && forall x, y :: fit(x) && fit(y) && x != y ==> ahead(x, y) || ahead(y, x)
  }

  /** Nothing that belongs at place `i` is missing there. */
  lemma {:induction false} NoneSkipped<T(!new)>(fit: T -> bool, ahead: (T, T) -> bool, alike: (T, T) -> bool,
                                                room: nat, a: seq<T>, b: seq<T>, i: nat)
    requires Orders(fit, ahead) && BestOf(fit, ahead, alike, room, a) && BestOf(fit, ahead, alike, room, b)
    requires i < |a| && i <= |b| && forall k :: 0 <= k < i ==> a[k] == b[k]
    ensures i < |b| && !ahead(a[i], b[i])
  {
    var p := a[i];
    if i == |b| || ahead(p, b[i]) {
      forall k | 0 <= k < |b| ensures b[k] != p && (k < i || !ahead(b[k], p)) {
        if k > i {
          assert ahead(b[i], b[k]);
        }
      }
      assert false;
    }
  }

  lemma {:induction false} NeitherAhead<T(!new)>(fit: T -> bool, ahead: (T, T) -> bool, x: T, y: T)
    requires Orders(fit, ahead) && fit(x) && fit(y) && !ahead(x, y) && !ahead(y, x)
    ensures x == y
  {
  }

  lemma {:induction false} SameNext<T(!new)>(fit: T -> bool, ahead: (T, T) -> bool, alike: (T, T) -> bool,
                                             room: nat, a: seq<T>, b: seq<T>, i: nat)
    requires Orders(fit, ahead) && BestOf(fit, ahead, alike, room, a) && BestOf(fit, ahead, alike, room, b)
    requires i < |a| && i <= |b| && forall k :: 0 <= k < i ==> a[k] == b[k]
    ensures i < |b| && a[i] == b[i]
  {
    NoneSkipped(fit, ahead, alike, room, a, b, i);
    NoneSkipped(fit, ahead, alike, room, b, a, i);
    NeitherAhead(fit, ahead, a[i], b[i]);
  }

  /** Two best lists cannot part company. */
  lemma {:induction false} SameFront<T(!new)>(fit: T -> bool, ahead: (T, T) -> bool, alike: (T, T) -> bool,
                                              room: nat, a: seq<T>, b: seq<T>, i: nat)
    requires Orders(fit, ahead) && BestOf(fit, ahead, alike, room, a) && BestOf(fit, ahead, alike, room, b)
    requires i <= |a|
    ensures i <= |b| && forall k :: 0 <= k < i ==> a[k] == b[k]
  {
    if i > 0 {
      SameFront(fit, ahead, alike, room, a, b, i - 1);
      SameNext(fit, ahead, alike, room, a, b, i - 1);
    }
  }

  lemma {:induction false} PlacesOrdered(query: string, sources: seq<Source>)
    ensures Orders((p: Place) => IsPlace(sources, p) && Common(query, sources, p) > 0,
                   (p, q) => Outranks(query, sources, p, q))
  {
    forall p, q
      ensures Outranks(query, sources, p, q) ==> !Outranks(query, sources, q, p)
      ensures IsPlace(sources, p) && IsPlace(sources, q) && p != q ==>
                Outranks(query, sources, p, q) || Outranks(query, sources, q, p)
    {
      if IsPlace(sources, p) && IsPlace(sources, q) {
        OutranksTotal(query, sources, p, q);
      }
    }
    forall p, q, r | Outranks(query, sources, p, q) && Outranks(query, sources, q, r)
      ensures Outranks(query, sources, p, r)
    {
      OutranksTransitive(query, sources, p, q, r);
    }
  }

  lemma {:induction false} PlacesAreBestOf(query: string, sources: seq<Source>, places: seq<Place>)
    requires BestPlaces(query, sources, places)
    ensures BestOf((p: Place) => IsPlace(sources, p) && Common(query, sources, p) > 0,
                   (p, q) => Outranks(query, sources, p, q),
                   (p, q) => IsPlace(sources, p) && IsPlace(sources, q) && TextAt(sources, p) == TextAt(sources, q),
                   3, places)
  {
    forall p | IsPlace(sources, p) && Common(query, sources, p) > 0 && p !in places
      ensures Dropped((p, q) => Outranks(query, sources, p, q),
                      (p, q) => IsPlace(sources, p) && IsPlace(sources, q)
                                && TextAt(sources, p) == TextAt(sources, q), 3, places, p)
    {
      assert Beaten(query, sources, places, p);
    }
  }

  /** Query and sources determine the choice. */
  lemma {:induction false} BestPlacesUnique(query: string, sources: seq<Source>, a: seq<Place>, b: seq<Place>)
    requires BestPlaces(query, sources, a) && BestPlaces(query, sources, b)
    ensures a == b
  {
    PlacesOrdered(query, sources);
    PlacesAreBestOf(query, sources, a);
    PlacesAreBestOf(query, sources, b);
    var fit := (p: Place) => IsPlace(sources, p) && Common(query, sources, p) > 0;
    var ahead := (p, q) => Outranks(query, sources, p, q);
    var alike := (p, q) => IsPlace(sources, p) && IsPlace(sources, q) && TextAt(sources, p) == TextAt(sources, q);
    SameFront(fit, ahead, alike, 3, a, b, |a|);
    SameFront(fit, ahead, alike, 3, b, a, |b|);
  }

  // ---- how the answer reads ----

  function Quote(sources: seq<Source>, p: Place): string
    requires IsPlace(sources, p)
  {
    TextAt(sources, p) + " [" + sources[p.source].marker + "]"
  }

  /** The best sentences in order, each followed by its marker in brackets; without any, a fixed text. */
  ghost predicate Prints(query: string, sources: seq<Source>, places: seq<Place>, text: string) {
    && BestPlaces(query, sources, places)
    && text == if |places| == 0 then "Not found in sources."
               else if |places| == 1 then Quote(sources, places[0])
               else if |places| == 2 then Quote(sources, places[0]) + " " + Quote(sources, places[1])
               else Quote(sources, places[0]) + " " + Quote(sources, places[1]) + " " + Quote(sources, places[2])
  }

  /** The answer prints the best sentences; it says that nothing was found exactly when no sentence shares
    * a token with the query. */
  lemma {:induction false} AnswerReads(query: string, sources: seq<Source>, places: seq<Place>)
    requires BestPlaces(query, sources, places)
    ensures Prints(query, sources, places, Compose(query, sources))
    ensures places == [] <==> forall p :: IsPlace(sources, p) ==> Common(query, sources, p) == 0
  {
    var best := ChosenAreBest(query, sources);
    BestPlacesUnique(query, sources, places, best);
    NothingToSay(query, sources, places);
    var chosen := Chosen(query, sources);
    forall i | 0 <= i < |places| ensures PartOf(chosen[i]) == Quote(sources, places[i]) {
      assert Quotes(query, sources, places[i], chosen[i]);
    }
    JoinThree(Parts(chosen));
  }

  lemma {:induction false} NothingToSay(query: string, sources: seq<Source>, places: seq<Place>)
    requires BestPlaces(query, sources, places) && |places| == |Chosen(query, sources)|
    ensures places == [] <==> Candidates(ContentTokens(query), sources) == []
    ensures places == [] <==> forall p :: IsPlace(sources, p) ==> Common(query, sources, p) == 0
  {
    var cands := Candidates(ContentTokens(query), sources);
    if cands != [] {
      SomethingChosen(query, sources);
    } else {
      assert Sort(cands, Better) == [];
    }
    if places == [] {
      forall p | IsPlace(sources, p) ensures Common(query, sources, p) == 0 {
        NothingBeats(query, sources, p);
      }
    } else {
      assert IsPlace(sources, places[0]) && Common(query, sources, places[0]) > 0;
    }
  }

  lemma {:induction false} NothingBeats(query: string, sources: seq<Source>, p: Place)
    ensures !Beaten(query, sources, [], p)
  {
  }

  lemma {:induction false} JoinThree(parts: seq<string>)
    requires |parts| <= 3
    ensures Join(parts) ==
            if |parts| == 0 then ""
            else if |parts| == 1 then parts[0]
            else if |parts| == 2 then parts[0] + " " + parts[1]
            else parts[0] + " " + parts[1] + " " + parts[2]
  {
    if |parts| == 2 {
      assert Join(parts[1..]) == parts[1];
      assert parts[0] + (" " + parts[1]) == parts[0] + " " + parts[1];
    } else if |parts| == 3 {
      assert parts[1..][1..] == [parts[2]];
      assert Join(parts[1..]) == parts[1] + (" " + parts[2]);
      assert parts[0] + (" " + (parts[1] + (" " + parts[2]))) == parts[0] + " " + parts[1] + " " + parts[2];
    }
  }

  // ---- whom the answer cites ----

  /** `x` is the source of a sentence of the answer, and the first such source of its marker. */
  ghost predicate Cited(sources: seq<Source>, places: seq<Place>, x: Citation) {
    exists i :: 0 <= i < |places| && IsPlace(sources, places[i])
                && x.marker == sources[places[i].source].marker && x.docId == sources[places[i].source].docId
                && x.source == sources[places[i].source].origin
                && forall j :: 0 <= j < i && IsPlace(sources, places[j]) ==>
                     sources[places[j].source].marker != x.marker
  }

  /** The first of the chosen candidates with the marker of `x` is what `x` cites. */
  ghost predicate FirstCited(chosen: seq<Candidate>, x: Citation) {
    exists i :: 0 <= i < |chosen| && x == Citation(chosen[i].marker, chosen[i].docId, chosen[i].origin)
                && forall j :: 0 <= j < i ==> chosen[j].marker != x.marker
  }

  lemma {:induction false} CiteMapFirst(chosen: seq<Candidate>, x: Citation)
    ensures x.marker in CiteMap(chosen) <==> exists i :: 0 <= i < |chosen| && chosen[i].marker == x.marker
    ensures x.marker in CiteMap(chosen) && x == CiteMap(chosen)[x.marker] <==> FirstCited(chosen, x)
  {
    if chosen != [] {
      var front, last := chosen[..|chosen| - 1], chosen[|chosen| - 1];
      CiteMapFirst(front, x);
      assert forall i :: 0 <= i < |front| ==> front[i] == chosen[i];
      if FirstCited(front, x) {
        var i :| 0 <= i < |front| && x == Citation(front[i].marker, front[i].docId, front[i].origin)
                 && forall j :: 0 <= j < i ==> front[j].marker != x.marker;
        assert x == Citation(chosen[i].marker, chosen[i].docId, chosen[i].origin);
      }
    }
  }

  lemma {:induction false} FirstCitedPlaces(query: string, sources: seq<Source>, places: seq<Place>,
                                            chosen: seq<Candidate>, x: Citation)
    requires |places| == |chosen|
    requires forall i :: 0 <= i < |places| ==> Quotes(query, sources, places[i], chosen[i])
    ensures FirstCited(chosen, x) <==> Cited(sources, places, x)
  {
    forall i | 0 <= i < |places|
      ensures IsPlace(sources, places[i]) && chosen[i].marker == sources[places[i].source].marker
      ensures chosen[i].docId == sources[places[i].source].docId
      ensures chosen[i].origin == sources[places[i].source].origin
    {
      assert Quotes(query, sources, places[i], chosen[i]);
    }
    if FirstCited(chosen, x) {
      var i :| 0 <= i < |chosen| && x == Citation(chosen[i].marker, chosen[i].docId, chosen[i].origin)
               && forall j :: 0 <= j < i ==> chosen[j].marker != x.marker;
      assert IsPlace(sources, places[i]);
    }
  }

  /** The citations attached to an answer are exactly the sources it quotes. */
  lemma {:induction false} AttachedCitations(query: string, sources: seq<Source>, places: seq<Place>, x: Citation)
    requires BestPlaces(query, sources, places)
    ensures var m := CiteMap(Chosen(query, sources));
            x.marker in m && x == m[x.marker] <==> Cited(sources, places, x)
  {
    var best := ChosenAreBest(query, sources);
    BestPlacesUnique(query, sources, places, best);
    CiteMapFirst(Chosen(query, sources), x);
    FirstCitedPlaces(query, sources, places, Chosen(query, sources), x);
  }

  /** Text and citations of the answer, both in terms of the best places. */
  lemma {:induction false} AnswerStands(query: string, sources: seq<Source>, cites: seq<Citation>)
    returns (places: seq<Place>)
    requires var m := CiteMap(Chosen(query, sources)); forall x :: x in cites <==> x.marker in m && x == m[x.marker]
    ensures Prints(query, sources, places, Compose(query, sources))
    ensures forall x :: x in cites <==> Cited(sources, places, x)
  {
    places := ChosenAreBest(query, sources);
    AnswerReads(query, sources, places);
    forall x ensures x in cites <==> Cited(sources, places, x) {
      AttachedCitations(query, sources, places, x);
    }
  }
}
