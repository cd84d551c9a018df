/** The extractive provider of internal/rag/rag.go and the lexical faithfulness check of
  * internal/rag/faithfulness.go, which have to agree with each other. */
module Extractive {
  import opened Texts
  import opened Sentences
  import opened Markers
  import opened Tokens
  import opened Sorting

  datatype Source = Source(marker: string, docId: string, origin: string, text: string)

  datatype Candidate = Candidate(text: string, marker: string, docId: string, origin: string, score: nat)

  const NOT_FOUND := "Not found in sources."

  function CandidateOf(query: set<string>, src: Source, sentence: string): Candidate {
    Candidate(sentence, src.marker, src.docId, src.origin, Overlap(query, ContentTokens(sentence)))
  }

  /** The sentences of one source that share a content token with the query. */
  function FromSentences(query: set<string>, src: Source, sentences: seq<string>): seq<Candidate> {
    if sentences == [] then []
    else
      var c := CandidateOf(query, src, sentences[|sentences| - 1]);
      FromSentences(query, src, sentences[..|sentences| - 1]) + (if c.score == 0 then [] else [c])
  }

  function Candidates(query: set<string>, sources: seq<Source>): seq<Candidate> {
    if sources == [] then []
    else
      var src := sources[|sources| - 1];
      Candidates(query, sources[..|sources| - 1]) + FromSentences(query, src, SplitSentences(src.text))
  }

  predicate Better(a: Candidate, b: Candidate) {
    if a.score == b.score then StrLess(a.marker, b.marker) else a.score > b.score
  }

  /** Up to `room` candidates, skipping texts already taken. */
  function Pick(cands: seq<Candidate>, seen: set<string>, room: nat): (r: seq<Candidate>)
    ensures |r| <= room
    ensures forall c :: c in r ==> c in cands
  {
    if cands == [] || room == 0 then []
    else if cands[0].text in seen then Pick(cands[1..], seen, room)
    else [cands[0]] + Pick(cands[1..], seen + {cands[0].text}, room - 1)
  }

  function Chosen(query: string, sources: seq<Source>): seq<Candidate> {
    Pick(Sort(Candidates(ContentTokens(query), sources), Better), {}, 3)
  }

  function PartOf(c: Candidate): string {
    c.text + " [" + c.marker + "]"
  }

  /** strings.Join with a single blank. */
  function Join(parts: seq<string>): string {
    if parts == [] then "" else if |parts| == 1 then parts[0] else parts[0] + (" " + Join(parts[1..]))
  }

  function Parts(chosen: seq<Candidate>): seq<string> {
    seq(|chosen|, i requires 0 <= i < |chosen| => PartOf(chosen[i]))
  }

  function TextsOf(chosen: seq<Candidate>): seq<string> {
    seq(|chosen|, i requires 0 <= i < |chosen| => chosen[i].text)
  }

  function Compose(query: string, sources: seq<Source>): string {
    if Candidates(ContentTokens(query), sources) == [] then NOT_FOUND else Join(Parts(Chosen(query, sources)))
  }

  // ---- the faithfulness check ----

  /** The share of `st` that occurs in the source. */
  function Share(st: set<string>, src: Source): real
    requires st != {}
  {
    Overlap(st, Tokenize(src.text)) as real / |st| as real
  }

  predicate WellCovered(st: set<string>, sources: seq<Source>) {
    st == {} || exists i :: 0 <= i < |sources| && Share(st, sources[i]) >= 0.6
  }

  /** At least six tenths of the content tokens occur in one source. */
  predicate Supported(sentence: string, sources: seq<Source>) {
    WellCovered(ContentTokens(sentence), sources)
  }

  function Unsupported(sentences: seq<string>, sources: seq<Source>): seq<string> {
    if sentences == [] then []
    else
      var last := sentences[|sentences| - 1];
      Unsupported(sentences[..|sentences| - 1], sources) + (if Supported(last, sources) then [] else [last])
  }

  datatype Verdict = Verdict(score: real, unsupported: seq<string>)

  /** The share of supported sentences; an empty answer is vacuously faithful. */
  function Grade(sentences: seq<string>, bad: seq<string>): Verdict {
    if sentences == [] then Verdict(1.0, [])
    else Verdict((|sentences| - |bad|) as real / |sentences| as real, bad)
  }

  function Faithfulness(answer: string, sources: seq<Source>): Verdict {
    var sentences := SplitSentences(Strip(answer));
    Grade(sentences, Unsupported(sentences, sources))
  }

  // ---- where candidates come from ----

  /** `c` is a sentence of the source at `k`, carrying that source's identity. */
  ghost predicate ComesFrom(sources: seq<Source>, k: nat, c: Candidate) {
    && k < |sources| && c.marker == sources[k].marker && c.docId == sources[k].docId && c.origin == sources[k].origin
    && c.text in SplitSentences(sources[k].text)
  }

  lemma {:induction false} SentenceOrigin(query: set<string>, src: Source, sentences: seq<string>, c: Candidate)
    requires c in FromSentences(query, src, sentences)
    ensures c.text in sentences && c.marker == src.marker && c.docId == src.docId && c.origin == src.origin
  {
    var last := CandidateOf(query, src, sentences[|sentences| - 1]);
    if c != last {
      SentenceOrigin(query, src, sentences[..|sentences| - 1], c);
    }
  }

  lemma {:induction false} CandidateOrigin(query: set<string>, sources: seq<Source>, c: Candidate)
    requires c in Candidates(query, sources)
    ensures exists k :: ComesFrom(sources, k, c)
  {
    var n := |sources| - 1;
    if c in FromSentences(query, sources[n], SplitSentences(sources[n].text)) {
      SentenceOrigin(query, sources[n], SplitSentences(sources[n].text), c);
      assert ComesFrom(sources, n, c);
    } else {
      CandidateOrigin(query, sources[..n], c);
      var k: nat :| ComesFrom(sources[..n], k, c);
      assert ComesFrom(sources, k, c);
    }
  }

  lemma {:induction false} PickTakesFirst(cands: seq<Candidate>, room: nat)
    requires cands != [] && room > 0
    ensures Pick(cands, {}, room) != []
  {
  }

  // ---- printing and stripping ----

  ghost predicate Printable(chosen: seq<Candidate>) {
    forall i :: 0 <= i < |chosen| ==> Sentence(chosen[i].text) && NoMark(chosen[i].text) && IsMarker(chosen[i].marker)
  }

  lemma {:induction false} PartsTail(chosen: seq<Candidate>)
    requires chosen != []
    ensures Parts(chosen)[0] == PartOf(chosen[0]) && Parts(chosen)[1..] == Parts(chosen[1..])
    ensures TextsOf(chosen)[0] == chosen[0].text && TextsOf(chosen)[1..] == TextsOf(chosen[1..])
  {
  }

  /** Stripping the markers from the printed answer leaves the sentences spread out by blanks. */
  lemma {:induction false} StripJoined(chosen: seq<Candidate>)
    requires Printable(chosen)
    ensures Strip(Join(Parts(chosen))) == Spread(TextsOf(chosen))
    decreases |chosen|
  {
    if chosen != [] {
      var c := chosen[0];
      PartsTail(chosen);
      if |chosen| == 1 {
        StripPart(c.text, c.marker, "");
        assert PartOf(c) + "" == PartOf(c);
        assert c.text + " " + Strip("") == c.text + " ";
      } else {
        var rest := " " + Join(Parts(chosen[1..]));
        StripPart(c.text, c.marker, rest);
        StripJoined(chosen[1..]);
        StripBlank(Join(Parts(chosen[1..])));
      }
    }
  }

  // ---- faithful by construction ----

  lemma {:induction false} PieceProperties(text: string, s: string)
    requires s in Split(text)
    ensures Sentence(s) && Tokenize(s) <= Tokenize(text) && (NoMark(text) ==> NoMark(s)) && (NoRef(text) ==> NoRef(s))
  {
    SplitPieces(text, s);
    var pre, post :| text == pre + s + post && (pre == "" || IsSpace(pre[|pre| - 1]));
    if pre != "" {
      SpaceIsNoWord(pre[|pre| - 1]);
    }
    CutEnds(s);
    PieceTokens(pre, s, post);
    if NoMark(text) {
      PieceNoMark(pre, s, post);
    }
    if NoRef(text) {
      PieceNoRef(pre, s, post);
    }
  }

  lemma {:induction false} FullOverlap(st: set<string>, whole: set<string>)
    requires st <= whole && st != {}
    ensures Overlap(st, whole) as real / |st| as real == 1.0
  {
    assert st * whole == st;
  }

  lemma {:induction false} WholeSupport(s: string, sources: seq<Source>, k: nat)
    requires k < |sources| && Tokenize(s) <= Tokenize(sources[k].text)
    ensures Supported(s, sources)
  {
    var st := ContentTokens(s);
    if st != {} {
      FullOverlap(st, Tokenize(sources[k].text));
    }
  }

  lemma {:induction false} NothingUnsupported(sentences: seq<string>, sources: seq<Source>)
    requires forall i :: 0 <= i < |sentences| ==> Supported(sentences[i], sources)
    ensures Unsupported(sentences, sources) == []
  {
    if sentences != [] {
      NothingUnsupported(sentences[..|sentences| - 1], sources);
    }
  }

  /** No source needs the splitter's fallback, none contains a marker, all are marked doc_N. */
  ghost predicate Citable(sources: seq<Source>) {
    forall k :: 0 <= k < |sources| ==>
      Split(sources[k].text) != [] && NoMark(sources[k].text) && IsMarker(sources[k].marker)
  }

  lemma {:induction false} CandidateFacts(sources: seq<Source>, k: nat, c: Candidate)
    requires ComesFrom(sources, k, c) && Citable(sources)
    ensures Sentence(c.text) && NoMark(c.text) && IsMarker(c.marker) && Supported(c.text, sources)
    ensures NoRef(sources[k].text) ==> NoRef(c.text)
  {
    assert Split(sources[k].text) != [] && NoMark(sources[k].text) && IsMarker(sources[k].marker);
    PieceProperties(sources[k].text, c.text);
    WholeSupport(c.text, sources, k);
  }

  ghost predicate FromSome(sources: seq<Source>, c: Candidate) {
    exists k :: ComesFrom(sources, k, c)
  }

  ghost predicate AllFrom(sources: seq<Source>, chosen: seq<Candidate>) {
    forall c :: c in chosen ==> FromSome(sources, c)
  }

  lemma {:induction false} ChosenAllFrom(query: string, sources: seq<Source>)
    ensures AllFrom(sources, Chosen(query, sources))
  {
    var cands := Candidates(ContentTokens(query), sources);
    SortElements(cands, Better);
    SameMembers(Sort(cands, Better), cands);
    MembersFrom(ContentTokens(query), sources, Chosen(query, sources));
  }

  lemma {:induction false} MembersFrom(query: set<string>, sources: seq<Source>, chosen: seq<Candidate>)
    requires forall c :: c in chosen ==> c in Candidates(query, sources)
    ensures AllFrom(sources, chosen)
  {
    forall c | c in chosen ensures FromSome(sources, c) {
      CandidateOrigin(query, sources, c);
    }
  }

  lemma {:induction false} ChosenFacts(sources: seq<Source>, chosen: seq<Candidate>)
    requires AllFrom(sources, chosen) && Citable(sources)
    ensures Printable(chosen) && forall i :: 0 <= i < |chosen| ==> Supported(chosen[i].text, sources)
  {
    forall i | 0 <= i < |chosen|
      ensures Sentence(chosen[i].text) && NoMark(chosen[i].text) && IsMarker(chosen[i].marker)
      ensures Supported(chosen[i].text, sources)
    {
      assert FromSome(sources, chosen[i]);
      var k: nat :| ComesFrom(sources, k, chosen[i]);
      CandidateFacts(sources, k, chosen[i]);
    }
  }

  /** A printed choice of source sentences reads back as those sentences, all supported. */
  lemma {:induction false} PrintedIsFaithful(sources: seq<Source>, chosen: seq<Candidate>)
    requires AllFrom(sources, chosen) && Citable(sources) && chosen != []
    ensures SplitSentences(Strip(Join(Parts(chosen)))) == TextsOf(chosen)
    ensures Faithfulness(Join(Parts(chosen)), sources) == Verdict(1.0, [])
  {
    ChosenFacts(sources, chosen);
    StripJoined(chosen);
    ReadBack(TextsOf(chosen));
    NothingUnsupported(TextsOf(chosen), sources);
    FullMarks(TextsOf(chosen));
  }

  lemma {:induction false} ReadBack(sentences: seq<string>)
    requires sentences != [] && forall i :: 0 <= i < |sentences| ==> Sentence(sentences[i])
    ensures SplitSentences(Spread(sentences)) == sentences
  {
    SplitSpread(sentences);
  }

  lemma {:induction false} FullMarks(sentences: seq<string>)
    ensures Grade(sentences, []) == Verdict(1.0, [])
  {
    if sentences != [] {
      AllOfThem(|sentences|);
    }
  }

  lemma {:induction false} AllOfThem(n: nat)
    requires n > 0
    ensures n as real / n as real == 1.0
  {
  }

  lemma {:induction false} SomethingChosen(query: string, sources: seq<Source>)
    requires Candidates(ContentTokens(query), sources) != []
    ensures Chosen(query, sources) != []
  {
    var cands := Candidates(ContentTokens(query), sources);
    SortElements(cands, Better);
    PickTakesFirst(Sort(cands, Better), 3);
  }

  /** Faithful by construction: an answer that does not abstain splits back into exactly the
    * sentences that were chosen, and the faithfulness check finds every one of them supported. */
  lemma {:induction false} FaithfulByConstruction(query: string, sources: seq<Source>)
    requires Candidates(ContentTokens(query), sources) != [] && Citable(sources)
    ensures SplitSentences(Strip(Compose(query, sources))) == TextsOf(Chosen(query, sources))
    ensures Faithfulness(Compose(query, sources), sources) == Verdict(1.0, [])
  {
    SomethingChosen(query, sources);
    ChosenAllFrom(query, sources);
    PrintedIsFaithful(sources, Chosen(query, sources));
  }

  /** The shape `retrieve` gives every source text never needs the fallback. */
  lemma {:induction false} RetrievedSourcesAreFaithful(query: string, sources: seq<Source>, titles: seq<string>,
                                                       bodies: seq<string>)
    requires |titles| == |bodies| == |sources| && Candidates(ContentTokens(query), sources) != []
    requires forall k :: 0 <= k < |sources| ==>
               sources[k].text == titles[k] + ". " + bodies[k] && NoMark(sources[k].text) && IsMarker(sources[k].marker)
    ensures Faithfulness(Compose(query, sources), sources) == Verdict(1.0, [])
  {
    forall k | 0 <= k < |sources| ensures Split(sources[k].text) != [] {
      TitledTextSplits(titles[k], bodies[k]);
    }
    FaithfulByConstruction(query, sources);
  }
}
