/** The abstention text under the faithfulness check. A comment in that code calls
  * abstentions trivially faithful; the code gives them no special treatment. */
module Abstention {
  import opened Texts
  import opened Sentences
  import opened Markers
  import opened Tokens
  import opened Extractive

  lemma {:induction false} StripNothing(s: string)
    requires forall i :: 0 <= i < |s| ==> s[i] != '['
    ensures Strip(s) == s
  {
    if s != "" {
      StripNothing(s[1..]);
      assert s == [s[0]] + s[1..];
    }
  }

  lemma {:induction false} CutAtLast(s: string, c: char)
    requires IsTerminator(c) && forall i :: 0 <= i < |s| ==> !IsTerminator(s[i])
    ensures Cut(s + [c]) == |s| + 1
  {
    if s == "" {
      assert s + [c] == [c];
    } else {
      CutAtLast(s[1..], c);
      assert (s + [c])[1..] == s[1..] + [c] && (s + [c])[0] == s[0];
    }
  }

  function LowerAll(s: string): string {
    seq(|s|, i requires 0 <= i < |s| => Lower(s[i]))
  }

  lemma {:induction false} OneWord(s: string, word: string)
    requires forall i :: 0 <= i < |s| ==> IsWord(s[i])
    ensures Scan(s, word) == One(word + LowerAll(s))
    decreases |s|
  {
    if s == "" {
      assert word + LowerAll(s) == word;
    } else {
      OneWord(s[1..], word + [Lower(s[0])]);
      assert (word + [Lower(s[0])]) + LowerAll(s[1..]) == word + LowerAll(s);
    }
  }

  lemma {:induction false} WordThenRest(w: string, l: string, c: char, rest: string)
    requires (forall i :: 0 <= i < |w| ==> IsWord(w[i])) && w != "" && LowerAll(w) == l && !IsWord(c)
    ensures Tokenize(w + [c] + rest) == {l} + Tokenize(rest)
  {
    ScanSeparated(w, c, rest, "");
    OneWord(w, "");
    assert "" + LowerAll(w) == l;
  }

  lemma {:induction false} FirstSplit()
    ensures NOT_FOUND == "Not" + [' '] + "found in sources."
  {
  }

  lemma {:induction false} SecondSplit()
    ensures "found in sources." == "found" + [' '] + "in sources."
  {
  }

  lemma {:induction false} ThirdSplit()
    ensures "in sources." == "in" + [' '] + "sources."
  {
  }

  lemma {:induction false} LastSplit()
    ensures "sources." == "sources" + ['.'] + ""
  {
  }

  lemma {:induction false} LoweredNot()
    ensures LowerAll("Not") == "not" && forall i :: 0 <= i < |"Not"| ==> IsWord("Not"[i])
  {
  }

  lemma {:induction false} LoweredFound()
    ensures LowerAll("found") == "found" && forall i :: 0 <= i < |"found"| ==> IsWord("found"[i])
  {
  }

  lemma {:induction false} LoweredIn()
    ensures LowerAll("in") == "in" && forall i :: 0 <= i < |"in"| ==> IsWord("in"[i])
  {
  }

  lemma {:induction false} LoweredSources()
    ensures LowerAll("sources") == "sources" && forall i :: 0 <= i < |"sources"| ==> IsWord("sources"[i])
  {
  }

  lemma {:induction false} LastTokens()
    ensures Tokenize("sources.") == {"sources"}
  {
    LoweredSources();
    WordThenRest("sources", "sources", '.', "");
    LastSplit();
  }

  lemma {:induction false} ThirdTokens()
    ensures Tokenize("in sources.") == {"in", "sources"}
  {
    LoweredIn();
    WordThenRest("in", "in", ' ', "sources.");
    ThirdSplit();
    LastTokens();
  }

  lemma {:induction false} SecondTokens()
    ensures Tokenize("found in sources.") == {"found", "in", "sources"}
  {
    LoweredFound();
    WordThenRest("found", "found", ' ', "in sources.");
    SecondSplit();
    ThirdTokens();
  }

  lemma {:induction false} AbstentionTokens()
    ensures Tokenize(NOT_FOUND) == {"not", "found", "in", "sources"}
  {
    LoweredNot();
    WordThenRest("Not", "not", ' ', "found in sources.");
    FirstSplit();
    SecondTokens();
  }

  lemma {:induction false} FoundCounts()
    ensures !IsStopword("found")
  {
  }

  lemma {:induction false} SourcesCounts()
    ensures !IsStopword("sources")
  {
  }

  lemma {:induction false} SmallOnesDoNot()
    ensures IsStopword("not") && IsStopword("in")
  {
  }

  lemma {:induction false} AbstentionContent()
    ensures ContentTokens(NOT_FOUND) == {"found", "sources"}
  {
    AbstentionTokens();
    FoundCounts();
    SourcesCounts();
    SmallOnesDoNot();
  }

  lemma {:induction false} OneSentence(body: string)
    requires body != "" && !IsSpace(body[0])
    requires forall i :: 0 <= i < |body| ==> body[i] != '[' && !IsTerminator(body[i])
    ensures SplitSentences(Strip(body + ['.'])) == [body + ['.']]
  {
    var s := body + ['.'];
    StripNothing(s);
    CutAtLast(body, '.');
    assert s[..|s|] == s && s[|s|..] == "";
    SentenceTrims(s);
    assert DropBlanks("") == "" && Split("") == [];
  }

  lemma {:induction false} AbstentionBody()
    ensures NOT_FOUND == "Not found in sources" + ['.']
  {
  }

  lemma {:induction false} BodyIsPlain()
    ensures forall i :: 0 <= i < |"Not found in sources"| ==>
              "Not found in sources"[i] != '[' && !IsTerminator("Not found in sources"[i])
  {
  }

  lemma {:induction false} AbstentionSentences()
    ensures SplitSentences(Strip(NOT_FOUND)) == [NOT_FOUND]
  {
    AbstentionBody();
    BodyIsPlain();
    OneSentence("Not found in sources");
  }

  /** Two tokens: six tenths of them is both. */
  lemma {:induction false} BothOrNot(a: string, b: string, src: Source)
    requires a != b
    ensures Share({a, b}, src) >= 0.6 <==> a in Tokenize(src.text) && b in Tokenize(src.text)
  {
    var st, t := {a, b}, Tokenize(src.text);
    assert |st| == 2;
    if a in t && b in t {
      assert st * t == st;
    } else if a in t {
      assert st * t == {a};
    } else if b in t {
      assert st * t == {b};
    } else {
      assert st * t == {};
    }
  }

  /** The abstention is judged like any other sentence: it passes exactly when one source happens
    * to contain both words "found" and "sources", and scores 0 otherwise. */
  lemma {:induction false} AbstentionVerdict(sources: seq<Source>)
    ensures Faithfulness(NOT_FOUND, sources) ==
            if exists k :: && 0 <= k < |sources| && "found" in Tokenize(sources[k].text)
                           && "sources" in Tokenize(sources[k].text)
            then Verdict(1.0, []) else Verdict(0.0, [NOT_FOUND])
  {
    AbstentionSentences();
    AbstentionContent();
    assert "found" != "sources" by {
      assert "found"[0] != "sources"[0];
    }
    forall k | 0 <= k < |sources|
      ensures Share({"found", "sources"}, sources[k]) >= 0.6 <==>
                "found" in Tokenize(sources[k].text) && "sources" in Tokenize(sources[k].text)
    {
      BothOrNot("found", "sources", sources[k]);
    }
    JudgedAlone(NOT_FOUND, sources);
  }

  lemma {:induction false} JudgedAlone(s: string, sources: seq<Source>)
    ensures Grade([s], Unsupported([s], sources)) ==
            if Supported(s, sources) then Verdict(1.0, []) else Verdict(0.0, [s])
  {
    var one := [s];
    assert one[..|one| - 1] == [];
  }
}
