/** What the faithfulness check of internal/rag/faithfulness.go finds in any answer, in whole numbers. */
module Grading {
  import opened Texts
  import opened Sentences
  import opened Markers
  import opened Tokens
  import opened Extractive

  /** At least three fifths of the sentence's content tokens occur together in one source, or it has
    * none. */
  ghost predicate Backed(sentence: string, sources: seq<Source>) {
    var st := ContentTokens(sentence);
    st == {} || exists k :: 0 <= k < |sources| && 5 * |st * Tokenize(sources[k].text)| >= 3 * |st|
  }

  lemma {:induction false} SixTenths(hits: nat, all: nat)
    requires all > 0
    ensures hits as real / all as real >= 0.6 <==> 5 * hits >= 3 * all
  {
    AtLeast(hits as real, all as real, 0.6);
    InFifths(hits, all);
  }

  lemma {:induction false} AtLeast(h: real, a: real, t: real)
    requires a > 0.0
    ensures h / a >= t <==> h >= t * a
  {
    var q := h / a;
    assert q * a == h;
    if q >= t {
      Scaled(q, t, a);
    } else {
      ScaledStrictly(t, q, a);
    }
  }

  lemma {:induction false} InFifths(hits: nat, all: nat)
    ensures hits as real >= 0.6 * all as real <==> 5 * hits >= 3 * all
  {
    assert 5.0 * hits as real == (5 * hits) as real && 3.0 * all as real == (3 * all) as real;
  }

  lemma {:induction false} Scaled(a: real, b: real, x: real)
    requires a >= b && x > 0.0
    ensures a * x >= b * x
  {
  }

  lemma {:induction false} ScaledStrictly(a: real, b: real, x: real)
    requires a > b && x > 0.0
    ensures a * x > b * x
  {
  }

  lemma {:induction false} NoneCounted(st: set<string>)
    ensures |st| == 0 <==> st == {}
  {
  }

  lemma {:induction false} SupportedExactly(sentence: string, sources: seq<Source>)
    ensures Supported(sentence, sources) <==> Backed(sentence, sources)
  {
    var st := ContentTokens(sentence);
    if st != {} {
      NoneCounted(st);
      forall k | 0 <= k < |sources|
        ensures Share(st, sources[k]) >= 0.6 <==> 5 * |st * Tokenize(sources[k].text)| >= 3 * |st|
      {
        SixTenths(Overlap(st, Tokenize(sources[k].text)), |st|);
      }
    }
  }

  /** `bad` are the places of the sentences without backing, in order. */
  ghost predicate Unbacked(sentences: seq<string>, sources: seq<Source>, bad: seq<nat>) {
    && (forall i :: 0 <= i < |bad| ==> bad[i] < |sentences|)
    && (forall i, j :: 0 <= i < j < |bad| ==> bad[i] < bad[j])
    && forall k :: 0 <= k < |sentences| ==> (k in bad <==> !Backed(sentences[k], sources))
  }

  lemma {:induction false} UnbackedOne(sentences: seq<string>, sources: seq<Source>, bad: seq<nat>)
    requires sentences != [] && Unbacked(sentences[..|sentences| - 1], sources, bad)
    ensures var n := |sentences| - 1;
            Unbacked(sentences, sources, if Backed(sentences[n], sources) then bad else bad + [n])
  {
    var n := |sentences| - 1;
    assert forall k :: 0 <= k < n ==> sentences[..n][k] == sentences[k];
    assert n !in bad;
  }

  lemma {:induction false} UnsupportedPlaces(sentences: seq<string>, sources: seq<Source>) returns (bad: seq<nat>)
    ensures Unbacked(sentences, sources, bad) && |bad| == |Unsupported(sentences, sources)|
    ensures forall i :: 0 <= i < |bad| ==> Unsupported(sentences, sources)[i] == sentences[bad[i]]
  {
    if sentences == [] {
      bad := [];
    } else {
      var n := |sentences| - 1;
      var front := UnsupportedPlaces(sentences[..n], sources);
      SupportedExactly(sentences[n], sources);
      UnbackedOne(sentences, sources, front);
      bad := if Backed(sentences[n], sources) then front else front + [n];
    }
  }

  ghost predicate Reports(v: Verdict, sentences: seq<string>, sources: seq<Source>, bad: seq<nat>) {
    && Unbacked(sentences, sources, bad) && |v.unsupported| == |bad|
    && (forall i :: 0 <= i < |bad| ==> v.unsupported[i] == sentences[bad[i]])
    && v.score * |sentences| as real == (|sentences| - |bad|) as real
    && (sentences == [] ==> v.score == 1.0)
  }

  lemma {:induction false} ReportedSo(sentences: seq<string>, sources: seq<Source>, bad: seq<nat>, u: seq<string>)
    requires Unbacked(sentences, sources, bad) && |bad| == |u| && (sentences == [] ==> u == [])
    requires forall i :: 0 <= i < |bad| ==> u[i] == sentences[bad[i]]
    ensures Reports(Grade(sentences, u), sentences, sources, bad)
  {
    GradeIs(sentences, u);
  }

  /** The verdict on any answer: its unsupported sentences are those without backing, in order, and the
    * score is the share of the others; an answer without sentences scores 1. */
  lemma {:induction false} VerdictExactly(answer: string, sources: seq<Source>) returns (bad: seq<nat>)
    ensures Reports(Faithfulness(answer, sources), SplitSentences(Strip(answer)), sources, bad)
  {
    var sentences := SplitSentences(Strip(answer));
    bad := UnsupportedPlaces(sentences, sources);
    ReportedSo(sentences, sources, bad, Unsupported(sentences, sources));
  }

  lemma {:induction false} GradeIs(sentences: seq<string>, bad: seq<string>)
    requires sentences == [] ==> bad == []
    ensures Grade(sentences, bad).unsupported == bad
    ensures Grade(sentences, bad).score * |sentences| as real == (|sentences| - |bad|) as real
    ensures sentences == [] ==> Grade(sentences, bad).score == 1.0
  {
    if sentences != [] {
      ShareTimes((|sentences| - |bad|) as real, |sentences| as real);
    }
  }

  lemma {:induction false} ShareTimes(a: real, b: real)
    requires b > 0.0
    ensures a / b * b == a
  {
  }
}
