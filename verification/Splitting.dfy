/** The sentence splitter of internal/rag/rag.go, exactly: where it cuts and what it yields. */
module Splitting {
  import opened Texts
  import opened Sentences

  /** A sentence ends at `p`: behind a terminator, before a blank or the end of the text. */
  predicate EndsAt(text: string, p: nat) {
    0 < p <= |text| && IsTerminator(text[p - 1]) && (p == |text| || IsBlank(text[p]))
  }

  /** `ends` lists the places where a sentence ends, each once, in order. */
  ghost predicate AllEnds(text: string, ends: seq<nat>) {
    && (forall i, j :: 0 <= i < j < |ends| ==> ends[i] < ends[j])
    && (forall i :: 0 <= i < |ends| ==> ends[i] <= |text|)
    && forall p :: 0 <= p <= |text| ==> (p in ends <==> EndsAt(text, p))
  }

  /** `s` is the stretch between two places without the spaces it begins with. */
  ghost predicate Stretch(text: string, from: nat, to: nat, s: string) {
    && from <= to <= |text| && s != "" && !IsSpace(s[0])
    && exists k :: from <= k <= to && s == text[k..to] && forall i :: from <= i < k ==> IsSpace(text[i])
  }

  function From(ends: seq<nat>, i: nat): nat
    requires i <= |ends|
  {
    if i == 0 then 0 else ends[i - 1]
  }

  /** One sentence for each end: what stands between it and the end before. */
  ghost predicate CutAtEnds(text: string, ends: seq<nat>, sentences: seq<string>) {
    |sentences| == |ends| &&
    forall i :: 0 <= i < |ends| ==> Stretch(text, From(ends, i), ends[i], sentences[i])
  }

  lemma {:induction false} FirstEnd(s: string)
    ensures Cut(s) > 0 ==> EndsAt(s, Cut(s))
    ensures forall p :: 0 <= p <= |s| && EndsAt(s, p) ==> 0 < Cut(s) <= p
  {
    if s != "" {
      FirstEnd(s[1..]);
      forall p | 0 <= p <= |s| && EndsAt(s, p) ensures 0 < Cut(s) <= p {
        if p > 1 {
          assert EndsAt(s[1..], p - 1);
        }
      }
      if Cut(s) > 1 {
        assert EndsAt(s[1..], Cut(s) - 1);
      }
    }
  }

  lemma {:induction false} BlanksDropped(s: string) returns (m: nat)
    ensures m <= |s| && DropBlanks(s) == s[m..] && forall i :: 0 <= i < m ==> IsBlank(s[i])
  {
    if s != "" && IsBlank(s[0]) {
      var k := BlanksDropped(s[1..]);
      m := k + 1;
      assert s[1..][k..] == s[m..];
      forall i | 0 <= i < m ensures IsBlank(s[i]) {
        assert i > 0 ==> s[i] == s[1..][i - 1];
      }
    } else {
      m := 0;
    }
  }

  lemma {:induction false} LeadingSpaces(s: string) returns (k: nat)
    ensures k <= |s| && TrimLeft(s) == s[k..] && forall i :: 0 <= i < k ==> IsSpace(s[i])
    ensures k < |s| ==> !IsSpace(s[k])
  {
    if s != "" && IsSpace(s[0]) {
      var n := LeadingSpaces(s[1..]);
      k := n + 1;
      assert s[1..][n..] == s[k..];
      forall i | 0 <= i < k ensures IsSpace(s[i]) {
        assert i > 0 ==> s[i] == s[1..][i - 1];
      }
    } else {
      k := 0;
    }
  }

  lemma {:induction false} FirstStretch(text: string)
    requires Cut(text) > 0
    ensures Stretch(text, 0, Cut(text), TrimSpace(text[..Cut(text)]))
  {
    var x := text[..Cut(text)];
    CutEnds(text);
    TrimmedSentence(x);
    var k := LeadingSpaces(x);
    assert x[k..] == text[k..Cut(text)];
    forall i | 0 <= i < k ensures IsSpace(text[i]) {
      assert x[i] == text[i];
    }
  }

  /** Behind the first sentence and the blanks after it, the text goes on at `m`. */
  ghost predicate GoesOn(text: string, c: nat, m: nat) {
    && c <= m <= |text| && EndsAt(text, c) && (forall p :: 0 <= p < c ==> !EndsAt(text, p))
    && (forall i :: c <= i < m ==> IsBlank(text[i]))
  }

  function Moved(ends: seq<nat>, c: nat, m: nat): (r: seq<nat>)
    ensures |r| == |ends| + 1 && r[0] == c && forall i :: 0 < i < |r| ==> r[i] == ends[i - 1] + m
  {
    [c] + seq(|ends|, i requires 0 <= i < |ends| => ends[i] + m)
  }

  lemma {:induction false} EndsLater(text: string, c: nat, m: nat, p: nat)
    requires GoesOn(text, c, m) && c < p <= |text|
    ensures EndsAt(text, p) <==> p > m && EndsAt(text[m..], p - m)
  {
  }

  lemma {:induction false} MovedHas(later: seq<nat>, c: nat, m: nat, p: nat)
    requires c < p && c <= m && forall i :: 0 <= i < |later| ==> later[i] > 0
    ensures p in Moved(later, c, m) <==> p > m && p - m in later
  {
    var ends := Moved(later, c, m);
    if p in ends {
      var i :| 0 <= i < |ends| && ends[i] == p;
      assert later[i - 1] == p - m;
    }
    if p > m && p - m in later {
      var i :| 0 <= i < |later| && later[i] == p - m;
      assert ends[i + 1] == p;
    }
  }

  lemma {:induction false} EndsMoved(text: string, c: nat, m: nat, later: seq<nat>)
    requires GoesOn(text, c, m) && AllEnds(text[m..], later)
    ensures AllEnds(text, Moved(later, c, m))
  {
    var ends := Moved(later, c, m);
    forall i | 0 <= i < |later| ensures later[i] > 0 {
      assert later[i] in later && EndsAt(text[m..], later[i]);
    }
    forall p | 0 <= p <= |text| ensures p in ends <==> EndsAt(text, p) {
      if p > c {
        EndsLater(text, c, m, p);
        MovedHas(later, c, m, p);
      } else {
        assert ends[0] == c && forall i :: 0 < i < |ends| ==> ends[i] > c;
      }
    }
  }

  lemma {:induction false} StretchMoved(text: string, c: nat, m: nat, from: nat, to: nat, s: string)
    requires c <= m <= |text| && (forall i :: c <= i < m ==> IsBlank(text[i])) && Stretch(text[m..], from, to, s)
    ensures Stretch(text, from + m, to + m, s)
    ensures from == 0 ==> Stretch(text, c, to + m, s)
  {
    var k :| from <= k <= to && s == text[m..][k..to] && forall i :: from <= i < k ==> IsSpace(text[m..][i]);
    assert text[m..][k..to] == text[k + m..to + m];
    forall i | from + m <= i < k + m ensures IsSpace(text[i]) {
      assert text[i] == text[m..][i - m];
    }
  }

  ghost predicate Gap(text: string, c: nat, m: nat) {
    c <= m <= |text| && forall i :: c <= i < m ==> IsBlank(text[i])
  }

  lemma {:induction false} LaterStretch(text: string, c: nat, m: nat, later: seq<nat>, i: nat, s: string)
    requires Gap(text, c, m) && i < |later| && Stretch(text[m..], From(later, i), later[i], s)
    ensures Stretch(text, From(Moved(later, c, m), i + 1), Moved(later, c, m)[i + 1], s)
  {
    StretchMoved(text, c, m, From(later, i), later[i], s);
  }

  lemma {:induction false} CutMoved(text: string, c: nat, m: nat, later: seq<nat>, first: string, rest: seq<string>,
                                    i: nat)
    requires Gap(text, c, m) && CutAtEnds(text[m..], later, rest) && Stretch(text, 0, c, first) && i <= |later|
    ensures Stretch(text, From(Moved(later, c, m), i), Moved(later, c, m)[i], ([first] + rest)[i])
  {
    if i > 0 {
      LaterStretch(text, c, m, later, i - 1, rest[i - 1]);
    }
  }

  lemma {:induction false} CutsMoved(text: string, c: nat, m: nat, later: seq<nat>, first: string, rest: seq<string>)
    requires Gap(text, c, m) && CutAtEnds(text[m..], later, rest) && Stretch(text, 0, c, first)
    ensures CutAtEnds(text, Moved(later, c, m), [first] + rest)
  {
    forall i | 0 <= i <= |later|
      ensures Stretch(text, From(Moved(later, c, m), i), Moved(later, c, m)[i], ([first] + rest)[i])
    {
      CutMoved(text, c, m, later, first, rest, i);
    }
  }

  /** The splitter yields one sentence for every place where one ends, and each is all that stands
    * between that place and the one before. */
  lemma {:induction false} SplitExactly(text: string) returns (ends: seq<nat>)
    ensures AllEnds(text, ends) && CutAtEnds(text, ends, Split(text))
    decreases |text|
  {
    var c := Cut(text);
    FirstEnd(text);
    if c == 0 {
      ends := [];
    } else {
      var gap := BlanksDropped(text[c..]);
      var m := c + gap;
      assert text[c..][gap..] == text[m..];
      assert forall i :: c <= i < m ==> text[i] == text[c..][i - c];
      var later := SplitExactly(text[m..]);
      FirstStretch(text);
      EndsMoved(text, c, m, later);
      CutsMoved(text, c, m, later, TrimSpace(text[..c]), Split(text[m..]));
      ends := Moved(later, c, m);
    }
  }

  /** Where no sentence ends, all that stands in the text is one sentence. */
  lemma {:induction false} SentencesExactly(text: string, core: string)
    requires HasCore(text, core)
    ensures SplitSentences(text) ==
            if exists p :: EndsAt(text, p) then Split(text) else if core == "" then [] else [core]
  {
    FirstEnd(text);
    TrimToCore(text, core);
  }
}
