/** The loops of internal/rag: `splitSentences`, `Generate` and `Faithfulness` as they run. */
module Provider {
  import opened Texts
  import opened Sentences
  import opened Markers
  import opened Tokens
  import opened Sorting
  import opened Extractive
  import opened Citations
  import opened Selection

  method SplitText(text: string) returns (out: seq<string>)
    ensures out == SplitSentences(text)
  {
    out := [];
    var rest := text;
    while Cut(rest) > 0
      invariant Split(text) == out + Split(rest)
      decreases |rest|
    {
      var s := TrimSpace(rest[..Cut(rest)]);
      SplitStep(rest);
      if s != "" {
        out := out + [s];
      }
      rest := DropBlanks(rest[Cut(rest)..]);
    }
    if |out| == 0 && TrimSpace(text) != "" {
      out := out + [TrimSpace(text)];
    }
  }

  lemma {:induction false} SplitStep(rest: string)
    requires Cut(rest) > 0
    ensures TrimSpace(rest[..Cut(rest)]) != ""
    ensures Split(rest) == [TrimSpace(rest[..Cut(rest)])] + Split(DropBlanks(rest[Cut(rest)..]))
  {
    FirstPiece(rest);
  }

  /** The sentences of one source that overlap the query. */
  method Collect(query: set<string>, src: Source) returns (cands: seq<Candidate>)
    ensures cands == FromSentences(query, src, SplitSentences(src.text))
  {
    var sentences := SplitText(src.text);
    cands := [];
    var i := 0;
    while i < |sentences|
      invariant 0 <= i <= |sentences| && cands == FromSentences(query, src, sentences[..i])
    {
      assert sentences[..i + 1][..i] == sentences[..i];
      var ov := Overlap(query, ContentTokens(sentences[i]));
      if ov != 0 {
        cands := cands + [Candidate(sentences[i], src.marker, src.docId, src.origin, ov)];
      }
      i := i + 1;
    }
    assert sentences[..i] == sentences;
  }

  /** Takes up to three different texts off the ranked list. */
  method Select(ranked: seq<Candidate>) returns (chosen: seq<Candidate>)
    ensures chosen == Pick(ranked, {}, 3)
  {
    chosen := [];
    var seen: set<string> := {};
    var i := 0;
    while i < |ranked| && |chosen| < 3
      invariant 0 <= i <= |ranked| && |chosen| <= 3
      invariant Pick(ranked, {}, 3) == chosen + Pick(ranked[i..], seen, 3 - |chosen|)
    {
      assert ranked[i..][1..] == ranked[i + 1..];
      if ranked[i].text !in seen {
        seen := seen + {ranked[i].text};
        chosen := chosen + [ranked[i]];
      }
      i := i + 1;
    }
  }

  method Print(chosen: seq<Candidate>) returns (text: string)
    ensures text == Join(Parts(chosen))
  {
    var parts: seq<string> := [];
    var i := 0;
    while i < |chosen|
      invariant 0 <= i <= |chosen| && parts == Parts(chosen[..i])
    {
      parts := parts + [chosen[i].text + " [" + chosen[i].marker + "]"];
      i := i + 1;
    }
    assert chosen[..i] == chosen;
    text := Join(parts);
  }

  /** One citation a marker, in marker order. */
  method Cite(chosen: seq<Candidate>) returns (cites: seq<Citation>)
    ensures forall x :: x in cites <==> x.marker in CiteMap(chosen) && x == CiteMap(chosen)[x.marker]
    ensures forall i, j :: 0 <= i < j < |cites| ==> StrLess(cites[i].marker, cites[j].marker)
  {
    var m: map<string, Citation> := map[];
    var i := 0;
    while i < |chosen|
      invariant 0 <= i <= |chosen| && m == CiteMap(chosen[..i])
    {
      assert chosen[..i + 1][..i] == chosen[..i];
      if chosen[i].marker !in m {
        m := m[chosen[i].marker := CiteOf(chosen[i])];
      }
      i := i + 1;
    }
    assert chosen[..i] == chosen;
    CiteMapKeyed(chosen);
    var keys := SortedKeys(m.Keys);
    cites := seq(|keys|, i requires 0 <= i < |keys| => if keys[i] in m then m[keys[i]] else Citation("", "", ""));
    assert forall i :: 0 <= i < |keys| ==> keys[i] in keys;
    forall x ensures x in cites <==> x.marker in m && x == m[x.marker] {
      if x.marker in m && x == m[x.marker] {
        var i :| 0 <= i < |keys| && keys[i] == x.marker;
        assert cites[i] == x;
      }
    }
  }

  lemma {:induction false} CiteMapKeyed(chosen: seq<Candidate>)
    ensures forall k :: k in CiteMap(chosen) ==> CiteMap(chosen)[k].marker == k
  {
    if chosen != [] {
      CiteMapKeyed(chosen[..|chosen| - 1]);
    }
  }

  method Gather(query: set<string>, sources: seq<Source>) returns (cands: seq<Candidate>)
    ensures cands == Candidates(query, sources)
  {
    cands := [];
    var i := 0;
    while i < |sources|
      invariant 0 <= i <= |sources| && cands == Candidates(query, sources[..i])
    {
      assert sources[..i + 1][..i] == sources[..i];
      var more := Collect(query, sources[i]);
      cands := cands + more;
      i := i + 1;
    }
    assert sources[..i] == sources;
  }

  method Generate(query: string, sources: seq<Source>) returns (text: string, cites: seq<Citation>)
    ensures text == Compose(query, sources)
    ensures exists places :: Prints(query, sources, places, text)
                             && forall x :: x in cites <==> Cited(sources, places, x)
    ensures var m := CiteMap(Chosen(query, sources)); forall x :: x in cites <==> x.marker in m && x == m[x.marker]
    ensures forall i, j :: 0 <= i < j < |cites| ==> StrLess(cites[i].marker, cites[j].marker)
  {
    var cands := Gather(ContentTokens(query), sources);
    ghost var places;
    if |cands| == 0 {
      text, cites := NOT_FOUND, [];
      assert Chosen(query, sources) == [];
    } else {
      var chosen := Select(Sort(cands, Better));
      text := Print(chosen);
      cites := Cite(chosen);
    }
    places := AnswerStands(query, sources, cites);
  }

  /** Whether some source carries enough of the tokens: the inner loop of the faithfulness check. */
  method IsCovered(st: set<string>, sources: seq<Source>) returns (ok: bool)
    ensures ok == WellCovered(st, sources)
  {
    if |st| == 0 {
      return true;
    }
    var best := 0.0;
    var i := 0;
    while i < |sources|
      invariant 0 <= i <= |sources| && (best == 0.0 || exists k :: 0 <= k < i && best == Share(st, sources[k]))
      invariant forall k :: 0 <= k < i ==> Share(st, sources[k]) <= best
    {
      var frac := Share(st, sources[i]);
      if frac > best {
        best := frac;
      }
      i := i + 1;
    }
    ok := best >= 0.6;
  }

  method IsSupported(sentence: string, sources: seq<Source>) returns (ok: bool)
    ensures ok == Supported(sentence, sources)
  {
    ok := IsCovered(ContentTokens(sentence), sources);
  }

  /** The outer loop: counts the supported sentences and keeps the others. */
  method Judge(sentences: seq<string>, sources: seq<Source>) returns (supported: nat, bad: seq<string>)
    ensures bad == Unsupported(sentences, sources) && supported + |bad| == |sentences|
  {
    supported, bad := 0, [];
    var i := 0;
    while i < |sentences|
      invariant 0 <= i <= |sentences| && bad == Unsupported(sentences[..i], sources) && supported + |bad| == i
    {
      UnsupportedNext(sentences, i, sources);
      var ok := IsSupported(sentences[i], sources);
      if ok {
        supported := supported + 1;
      } else {
        bad := bad + [sentences[i]];
      }
      i := i + 1;
    }
    assert sentences[..i] == sentences;
  }

  lemma {:induction false} UnsupportedNext(sentences: seq<string>, i: nat, sources: seq<Source>)
    requires i < |sentences|
    ensures Unsupported(sentences[..i + 1], sources) ==
            Unsupported(sentences[..i], sources) + (if Supported(sentences[i], sources) then [] else [sentences[i]])
  {
    assert sentences[..i + 1][..i] == sentences[..i];
  }

  method CheckFaithfulness(answer: string, sources: seq<Source>) returns (v: Verdict)
    ensures v == Faithfulness(answer, sources)
  {
    var sentences := SplitText(Strip(answer));
    if |sentences| == 0 {
      return Verdict(1.0, []);
    }
    var supported, bad := Judge(sentences, sources);
    v := Verdict(supported as real / |sentences| as real, bad);
  }
}
