/** Citations: those `Generate` attaches (internal/rag/rag.go) and those read back out of the
  * text (internal/rag/cite.go). The relevance score is not part of either here. */
module Citations {
  import opened Markers
  import opened Tokens
  import opened Sentences
  import opened Extractive

  datatype Citation = Citation(marker: string, docId: string, source: string)

  function CiteOf(c: Candidate): Citation {
    Citation(c.marker, c.docId, c.origin)
  }

  /** The first chosen candidate of each marker is the one cited. */
  function CiteMap(chosen: seq<Candidate>): map<string, Citation> {
    if chosen == [] then map[]
    else
      var m, c := CiteMap(chosen[..|chosen| - 1]), chosen[|chosen| - 1];
      if c.marker in m then m else m[c.marker := CiteOf(c)]
  }

  function ByMarker(sources: seq<Source>): map<string, Source> {
    if sources == [] then map[]
    else
      var last := sources[|sources| - 1];
      ByMarker(sources[..|sources| - 1])[last.marker := last]
  }

  function CiteRefs(refs: seq<string>, byMarker: map<string, Source>, seen: set<string>): seq<Citation> {
    if refs == [] then []
    else if refs[0] in seen then CiteRefs(refs[1..], byMarker, seen)
    else
      (if refs[0] in byMarker then [Citation(refs[0], byMarker[refs[0]].docId, byMarker[refs[0]].origin)] else [])
      + CiteRefs(refs[1..], byMarker, seen + {refs[0]})
  }

  function CitationsFromText(text: string, sources: seq<Source>): seq<Citation> {
    CiteRefs(Refs(text), ByMarker(sources), {})
  }

  /** The loops of citationsFromText. */
  method CitationsFrom(text: string, sources: seq<Source>) returns (cites: seq<Citation>)
    ensures cites == CitationsFromText(text, sources)
  {
    var byMarker: map<string, Source> := map[];
    var i := 0;
    while i < |sources|
      invariant 0 <= i <= |sources| && byMarker == ByMarker(sources[..i])
    {
      assert sources[..i + 1][..i] == sources[..i];
      byMarker := byMarker[sources[i].marker := sources[i]];
      i := i + 1;
    }
    assert sources[..i] == sources;
    var refs, seen: set<string> := Refs(text), {};
    cites := [];
    var j := 0;
    while j < |refs|
      invariant 0 <= j <= |refs| && CiteRefs(refs, byMarker, {}) == cites + CiteRefs(refs[j..], byMarker, seen)
    {
      var m := refs[j];
      assert refs[j..][1..] == refs[j + 1..];
      if m !in seen {
        seen := seen + {m};
        if m in byMarker {
          cites := cites + [Citation(m, byMarker[m].docId, byMarker[m].origin)];
        }
      }
      j := j + 1;
    }
  }

  // ---- the round trip ----

  function MarkersOf(chosen: seq<Candidate>): seq<string> {
    seq(|chosen|, i requires 0 <= i < |chosen| => chosen[i].marker)
  }

  ghost predicate Referable(chosen: seq<Candidate>) {
    forall i :: 0 <= i < |chosen| ==> NoRef(chosen[i].text) && IsMarker(chosen[i].marker)
  }

  /** Reading the references of a printed answer gives its markers back, in order. */
  lemma {:induction false} RefsJoined(chosen: seq<Candidate>)
    requires Referable(chosen)
    ensures Refs(Join(Parts(chosen))) == MarkersOf(chosen)
    decreases |chosen|
  {
    if chosen != [] {
      var c := chosen[0];
      PartsTail(chosen);
      assert MarkersOf(chosen) == [c.marker] + MarkersOf(chosen[1..]);
      if |chosen| == 1 {
        RefsPart(c.text, c.marker, "");
        assert PartOf(c) + "" == PartOf(c);
      } else {
        var rest := Join(Parts(chosen[1..]));
        RefsPart(c.text, c.marker, " " + rest);
        RefsJoined(chosen[1..]);
        RefsSkip(' ', rest);
      }
    }
  }

  ghost predicate DistinctMarkers(sources: seq<Source>) {
    forall i, j :: 0 <= i < j < |sources| ==> sources[i].marker != sources[j].marker
  }

  lemma {:induction false} ByMarkerFinds(sources: seq<Source>, k: nat)
    requires DistinctMarkers(sources) && k < |sources|
    ensures sources[k].marker in ByMarker(sources) && ByMarker(sources)[sources[k].marker] == sources[k]
  {
    var n := |sources| - 1;
    if k < n {
      ByMarkerFinds(sources[..n], k);
    }
  }

  /** What reading back yields: each unseen marker once, with the source it names. */
  lemma {:induction false} CiteRefsMembers(refs: seq<string>, byMarker: map<string, Source>, seen: set<string>,
                                           x: Citation)
    ensures x in CiteRefs(refs, byMarker, seen) <==>
            x.marker in refs && x.marker !in seen && x.marker in byMarker &&
              x == Citation(x.marker, byMarker[x.marker].docId, byMarker[x.marker].origin)
    decreases |refs|
  {
    if refs != [] {
      assert refs == [refs[0]] + refs[1..];
      CiteRefsMembers(refs[1..], byMarker, if refs[0] in seen then seen else seen + {refs[0]}, x);
    }
  }

  lemma {:induction false} CiteMapMembers(chosen: seq<Candidate>, sources: seq<Source>, m: string)
    requires DistinctMarkers(sources) && AllFrom(sources, chosen)
    ensures m in CiteMap(chosen) <==> m in MarkersOf(chosen)
    ensures m in CiteMap(chosen) ==>
              m in ByMarker(sources) &&
              CiteMap(chosen)[m] == Citation(m, ByMarker(sources)[m].docId, ByMarker(sources)[m].origin)
  {
    if chosen != [] {
      var front, c := chosen[..|chosen| - 1], chosen[|chosen| - 1];
      CiteMapMembers(front, sources, m);
      assert MarkersOf(chosen) == MarkersOf(front) + [c.marker];
      assert FromSome(sources, c);
      var k: nat :| ComesFrom(sources, k, c);
      ByMarkerFinds(sources, k);
    }
  }

  /** No source needs the splitter's fallback, none mentions a reference, all are marked doc_N. */
  ghost predicate Readable(sources: seq<Source>) {
    forall k :: 0 <= k < |sources| ==>
      Split(sources[k].text) != [] && NoRef(sources[k].text) && IsMarker(sources[k].marker)
  }

  lemma {:induction false} ChosenReferable(sources: seq<Source>, chosen: seq<Candidate>)
    requires AllFrom(sources, chosen)
    requires Readable(sources)
    ensures Referable(chosen)
  {
    forall i | 0 <= i < |chosen| ensures NoRef(chosen[i].text) && IsMarker(chosen[i].marker) {
      assert FromSome(sources, chosen[i]);
      var k: nat :| ComesFrom(sources, k, chosen[i]);
      assert Split(sources[k].text) != [] && NoRef(sources[k].text) && IsMarker(sources[k].marker);
      PieceProperties(sources[k].text, chosen[i].text);
    }
  }

  /** Citation round trip: for sources with distinct markers and no reference in their text, the
    * citations read back out of a generated answer are those attached to it, each once. */
  lemma {:induction false} CitationRoundTrip(query: string, sources: seq<Source>, x: Citation)
    requires Candidates(ContentTokens(query), sources) != [] && DistinctMarkers(sources)
    requires Readable(sources)
    ensures x in CitationsFromText(Compose(query, sources), sources) <==>
            x.marker in CiteMap(Chosen(query, sources)) && x == CiteMap(Chosen(query, sources))[x.marker]
  {
    var chosen := Chosen(query, sources);
    ChosenAllFrom(query, sources);
    RoundTripOf(sources, chosen, x);
  }

  lemma {:induction false} RoundTripOf(sources: seq<Source>, chosen: seq<Candidate>, x: Citation)
    requires AllFrom(sources, chosen) && DistinctMarkers(sources)
    requires Readable(sources)
    ensures x in CitationsFromText(Join(Parts(chosen)), sources) <==>
              x.marker in CiteMap(chosen) && x == CiteMap(chosen)[x.marker]
  {
    ChosenReferable(sources, chosen);
    RefsJoined(chosen);
    CiteRefsMembers(MarkersOf(chosen), ByMarker(sources), {}, x);
    CiteMapMembers(chosen, sources, x.marker);
  }

  ghost predicate OnceEach(cites: seq<Citation>) {
    forall i, j :: 0 <= i < j < |cites| ==> cites[i].marker != cites[j].marker
  }

  lemma {:induction false} OneMoreOnce(x: Citation, rest: seq<Citation>)
    requires OnceEach(rest) && forall j :: 0 <= j < |rest| ==> rest[j].marker != x.marker
    ensures OnceEach([x] + rest)
  {
  }

  /** Nothing is cited twice when reading back. */
  lemma {:induction false} ReadBackOnce(refs: seq<string>, byMarker: map<string, Source>, seen: set<string>)
    ensures OnceEach(CiteRefs(refs, byMarker, seen))
    decreases |refs|
  {
    if refs != [] {
      var m := refs[0];
      var next := if m in seen then seen else seen + {m};
      var rest := CiteRefs(refs[1..], byMarker, next);
      ReadBackOnce(refs[1..], byMarker, next);
      if m !in seen && m in byMarker {
        forall j | 0 <= j < |rest| ensures rest[j].marker != m {
          CiteRefsMembers(refs[1..], byMarker, next, rest[j]);
        }
        OneMoreOnce(Citation(m, byMarker[m].docId, byMarker[m].origin), rest);
      } else {
        assert [] + rest == rest;
      }
    }
  }
}
