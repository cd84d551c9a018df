/** The sentence splitter of internal/rag/rag.go; its regular expression becomes a recursive
  * scanner. */
module Sentences {
  import opened Texts

  // ---- (?s)(.*?[.!?])(\s+|$) ----

  predicate IsTerminator(c: char) {
    c == '.' || c == '!' || c == '?'
  }

  /** The class \s, which is narrower than unicode.IsSpace. */
  predicate IsBlank(c: char) {
    c == '\t' || c == '\n' || c == '\U{0C}' || c == '\r' || c == ' '
  }

  predicate EndsHere(s: string) {
    s != "" && IsTerminator(s[0]) && (|s| == 1 || IsBlank(s[1]))
  }

  /** The length of the shortest prefix that ends a sentence; 0 when nothing does. */
  function Cut(s: string): (n: nat)
    ensures n <= |s|
  {
    if s == "" then 0
    else if EndsHere(s) then 1
    else if Cut(s[1..]) == 0 then 0 else Cut(s[1..]) + 1
  }

  function DropBlanks(s: string): (r: string)
    ensures |r| <= |s|
  {
    if s != "" && IsBlank(s[0]) then DropBlanks(s[1..]) else s
  }

  function Split(s: string): seq<string>
    decreases |s|
  {
    if Cut(s) == 0 then [] else [TrimSpace(s[..Cut(s)])] + Split(DropBlanks(s[Cut(s)..]))
  }

  function SplitSentences(s: string): seq<string> {
    if Split(s) != [] then Split(s) else if TrimSpace(s) != "" then [TrimSpace(s)] else []
  }

  /** A text the splitter gives back whole. */
  predicate Sentence(s: string) {
    s != "" && Cut(s) == |s| && !IsSpace(s[0])
  }

  lemma {:induction false} CutEnds(s: string)
    requires Cut(s) > 0
    ensures IsTerminator(s[Cut(s) - 1]) && Cut(s[..Cut(s)]) == Cut(s)
  {
    var n := Cut(s);
    if EndsHere(s) {
      assert s[..1][0] == s[0];
    } else {
      CutEnds(s[1..]);
      assert s[..n][1..] == s[1..][..n - 1];
      assert n > 1 ==> s[..n][1] == s[1];
      assert s[..n][0] == s[0];
      assert n >= 2;
    }
  }

  /** What follows a sentence cannot move its end, as long as it starts with a blank. */
  lemma {:induction false} CutAppend(s: string, t: string)
    requires s != "" && Cut(s) == |s| && (t == "" || IsBlank(t[0]))
    ensures Cut(s + t) == |s|
  {
    if |s| == 1 {
      assert Cut(s[1..]) == 0;
      assert EndsHere(s + t);
    } else {
      assert !EndsHere(s);
      assert (s + t)[0] == s[0] && (s + t)[1] == s[1];
      assert (s + t)[1..] == s[1..] + t;
      CutAppend(s[1..], t);
    }
  }

  lemma {:induction false} CutSkipsSpace(s: string)
    requires s != "" && Cut(s) == |s| && IsSpace(s[0])
    ensures |s| > 1 && Cut(s[1..]) == |s| - 1
  {
    assert !IsTerminator(s[0]);
  }

  /** Trimming a complete sentence only takes leading space off, and leaves a sentence. */
  lemma {:induction false} TrimmedSentence(s: string)
    requires s != "" && Cut(s) == |s|
    ensures Sentence(TrimSpace(s)) && TrimSpace(s) == TrimLeft(s)
    ensures exists k :: 0 <= k < |s| && TrimLeft(s) == s[k..] && (k == 0 || IsSpace(s[k - 1]))
    decreases |s|
  {
    if IsSpace(s[0]) {
      CutSkipsSpace(s);
      TrimmedSentence(s[1..]);
      var k :| 0 <= k < |s| - 1 && TrimLeft(s[1..]) == s[1..][k..] && (k == 0 || IsSpace(s[1..][k - 1]));
      assert s[1..][k..] == s[k + 1..];
      assert k > 0 ==> s[1..][k - 1] == s[k];
    } else {
      CutEnds(s);
      assert s[0..] == s;
      assert s[..|s|] == s;
    }
  }

  /** `s` stands in `text` as a piece of its own: after a space or at the start. */
  ghost predicate PieceOf(text: string, s: string) {
    exists pre, post :: text == pre + s + post && (pre == "" || IsSpace(pre[|pre| - 1]))
  }

  lemma {:induction false} DropBlanksSuffix(s: string)
    ensures exists k :: 0 <= k <= |s| && DropBlanks(s) == s[k..] && (k == 0 || IsSpace(s[k - 1]))
  {
    if s != "" && IsBlank(s[0]) {
      DropBlanksSuffix(s[1..]);
      var k :| 0 <= k <= |s| - 1 && DropBlanks(s[1..]) == s[1..][k..] && (k == 0 || IsSpace(s[1..][k - 1]));
      assert s[1..][k..] == s[k + 1..];
      assert k > 0 ==> s[1..][k - 1] == s[k];
    } else {
      assert s[0..] == s;
    }
  }

  lemma {:induction false} PieceDeeper(text: string, n: nat, s: string)
    requires n <= |text| && (n == 0 || IsSpace(text[n - 1])) && PieceOf(text[n..], s)
    ensures PieceOf(text, s)
  {
    var pre, post :| text[n..] == pre + s + post && (pre == "" || IsSpace(pre[|pre| - 1]));
    var pre' := text[..n] + pre;
    assert text == pre' + s + post;
    assert pre' == "" || IsSpace(pre'[|pre'| - 1]);
  }

  lemma {:induction false} CutThenBlank(s: string)
    requires Cut(s) > 0
    ensures Cut(s) == |s| || IsBlank(s[Cut(s)])
  {
    if !EndsHere(s) {
      CutThenBlank(s[1..]);
    }
  }

  lemma {:induction false} PieceMid(text: string, k: nat, n: nat)
    requires k <= n <= |text| && (k == 0 || IsSpace(text[k - 1]))
    ensures PieceOf(text, text[k..n])
  {
    var pre, post := text[..k], text[n..];
    assert text == pre + text[k..n] + post;
  }

  lemma {:induction false} FirstPiece(text: string)
    requires Cut(text) > 0
    ensures var p := TrimSpace(text[..Cut(text)]); Sentence(p) && PieceOf(text, p)
  {
    var n := Cut(text);
    var x := text[..n];
    CutEnds(text);
    TrimmedSentence(x);
    var k: nat :| k < |x| && TrimLeft(x) == x[k..] && (k == 0 || IsSpace(x[k - 1]));
    assert x[k..] == text[k..n];
    assert k > 0 ==> x[k - 1] == text[k - 1];
    PieceMid(text, k, n);
  }

  lemma {:induction false} RestStarts(text: string)
    requires Cut(text) > 0 && DropBlanks(text[Cut(text)..]) != ""
    ensures exists n :: 0 < n <= |text| && DropBlanks(text[Cut(text)..]) == text[n..] && IsSpace(text[n - 1])
  {
    var c := Cut(text);
    CutThenBlank(text);
    assert c < |text| && IsBlank(text[c]);
    assert text[c..][0] == text[c] && text[c..][1..] == text[c + 1..];
    var rest := text[c + 1..];
    assert DropBlanks(text[c..]) == DropBlanks(rest);
    DropBlanksSuffix(rest);
    var k :| 0 <= k <= |rest| && DropBlanks(rest) == rest[k..] && (k == 0 || IsSpace(rest[k - 1]));
    assert rest[k..] == text[c + 1 + k..];
    assert k > 0 ==> rest[k - 1] == text[c + k];
    assert IsSpace(text[c + k]);
  }

  /** Everything the splitter yields without its fallback is a sentence and a piece of the text. */
  lemma {:induction false} SplitPieces(text: string, p: string)
    requires p in Split(text)
    ensures Sentence(p) && PieceOf(text, p)
    decreases |text|
  {
    var first, rest := TrimSpace(text[..Cut(text)]), DropBlanks(text[Cut(text)..]);
    FirstPiece(text);
    if p != first {
      assert p in Split(rest);
      SplitPieces(rest, p);
      RestStarts(text);
      var n :| 0 < n <= |text| && rest == text[n..] && IsSpace(text[n - 1]);
      PieceDeeper(text, n, p);
    }
  }

  /** "Title. Body" never needs the fallback. */
  lemma {:induction false} TitledTextSplits(title: string, body: string)
    ensures Split(title + ". " + body) != []
  {
    TitledCut(title, body);
  }

  lemma {:induction false} TitledCut(title: string, body: string)
    ensures Cut(title + ". " + body) > 0
  {
    var s := title + ". " + body;
    if title == "" {
      assert s[0] == '.' && s[1] == ' ';
    } else if !EndsHere(s) {
      TitledCut(title[1..], body);
      assert s[1..] == title[1..] + ". " + body;
    }
  }

  /** Sentences laid out with blanks in between split back into themselves. */
  function Spread(sentences: seq<string>): string {
    if sentences == [] then ""
    else if |sentences| == 1 then sentences[0] + " "
    else sentences[0] + " " + (" " + Spread(sentences[1..]))
  }

  lemma {:induction false} SplitSpread(sentences: seq<string>)
    requires forall i :: 0 <= i < |sentences| ==> Sentence(sentences[i])
    ensures Split(Spread(sentences)) == sentences
    decreases |sentences|
  {
    if sentences != [] {
      var s, more := sentences[0], sentences[1..];
      var tail := if more == [] then " " else " " + (" " + Spread(more));
      assert Spread(sentences) == s + tail;
      CutAppend(s, tail);
      assert (s + tail)[..|s|] == s && (s + tail)[|s|..] == tail;
      SentenceTrims(s);
      SplitSpread(more);
      SpreadStarts(more);
      DropTwo(Spread(more));
      assert sentences == [s] + more;
    }
  }

  lemma {:induction false} SentenceTrims(s: string)
    requires Sentence(s)
    ensures TrimSpace(s) == s
  {
    TrimmedSentence(s);
  }

  lemma {:induction false} SpreadStarts(sentences: seq<string>)
    requires forall i :: 0 <= i < |sentences| ==> Sentence(sentences[i])
    ensures sentences == [] || (Spread(sentences) != "" && !IsBlank(Spread(sentences)[0]))
  {
    if sentences != [] {
      assert Spread(sentences)[0] == sentences[0][0];
    }
  }

  lemma {:induction false} DropTwo(s: string)
    requires s == "" || !IsBlank(s[0])
    ensures DropBlanks(" " + (" " + s)) == s && DropBlanks(" ") == ""
  {
    var t, u, one := " " + (" " + s), " " + s, " ";
    assert t[1..] == u && u[1..] == s && one[1..] == "";
    assert DropBlanks(t) == DropBlanks(u) && DropBlanks(u) == DropBlanks(s) && DropBlanks(one) == DropBlanks("");
  }
}
