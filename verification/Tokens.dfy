/** The tokenizer of internal/rag/rag.go: the runs of [a-z0-9] in the lower-cased text. */
module Tokens {
  import opened Texts

  /** The rune mapping of strings.ToLower as far as the pattern can see it: besides A-Z, only the
    * Kelvin sign and the dotted capital I have a lower case in a-z. */
  function Lower(c: char): char {
    if 'A' <= c <= 'Z' then (c - 'A') + 'a'
    else if c == '\U{212A}' then 'k'
    else if c == '\U{130}' then 'i'
    else c
  }

  predicate IsWord(c: char) {
    'a' <= Lower(c) <= 'z' || '0' <= Lower(c) <= '9'
  }

  function One(word: string): set<string> {
    if word == "" then {} else {word}
  }

  /** The tokens of `s` when the run `word` is already under way. */
  function Scan(s: string, word: string): set<string>
    decreases |s|
  {
    if s == "" then One(word)
    else if IsWord(s[0]) then Scan(s[1..], word + [Lower(s[0])])
    else One(word) + Scan(s[1..], "")
  }

  function Tokenize(s: string): set<string> {
    Scan(s, "")
  }

  predicate IsStopword(w: string) {
    w in {
      "the", "a", "an", "and", "or", "of", "to", "in", "is", "are", "it", "that",
      "this", "for", "on", "with", "as", "by", "be", "at", "from", "into", "so", "not"
    }
  }

  function ContentTokens(s: string): set<string> {
    set w | w in Tokenize(s) && !IsStopword(w)
  }

  function Overlap(a: set<string>, b: set<string>): nat {
    |a * b|
  }

  /** A separator splits the token set in two. */
  lemma {:induction false} ScanSeparated(a: string, c: char, b: string, word: string)
    requires !IsWord(c)
    ensures Scan(a + [c] + b, word) == Scan(a, word) + Scan(b, "")
    decreases |a|
  {
    var s := a + [c] + b;
    if a == "" {
      assert s[0] == c && s[1..] == b;
    } else {
      assert s[0] == a[0] && s[1..] == a[1..] + [c] + b;
      if IsWord(a[0]) {
        ScanSeparated(a[1..], c, b, word + [Lower(a[0])]);
      } else {
        ScanSeparated(a[1..], c, b, "");
      }
    }
  }

  /** A piece that begins after a separator and ends with one keeps its tokens in the whole. */
  lemma {:induction false} PieceTokens(pre: string, s: string, post: string)
    requires pre == "" || !IsWord(pre[|pre| - 1])
    requires s != "" && !IsWord(s[|s| - 1])
    ensures Tokenize(s) <= Tokenize(pre + s + post)
  {
    var body, stop := s[..|s| - 1], s[|s| - 1];
    assert s == body + [stop] + "" && pre + s + post == (pre + body) + [stop] + post;
    ScanSeparated(body, stop, "", "");
    ScanSeparated(pre + body, stop, post, "");
    if pre != "" {
      var front, gap := pre[..|pre| - 1], pre[|pre| - 1];
      assert pre + body == front + [gap] + body;
      ScanSeparated(front, gap, body, "");
    } else {
      assert pre + body == body;
    }
  }

  lemma {:induction false} SpaceIsNoWord(c: char)
    ensures IsSpace(c) ==> !IsWord(c)
  {
  }

  // ---- what the tokens are ----

  /** The characters from `i` to `j` are a whole run of word characters, and spell `w` in lower case. */
  predicate Run(s: string, i: nat, j: nat, w: string) {
    && i < j <= |s| && (forall k :: i <= k < j ==> IsWord(s[k]))
    && (i == 0 || !IsWord(s[i - 1])) && (j == |s| || !IsWord(s[j]))
    && |w| == j - i && forall k :: 0 <= k < |w| ==> w[k] == Lower(s[i + k])
  }

  /** The run under way at `n` began at `start`. */
  predicate UnderWay(s: string, start: nat, n: nat, word: string) {
    && start <= n <= |s| && (start == 0 || !IsWord(s[start - 1])) && (forall k :: start <= k < n ==> IsWord(s[k]))
    && |word| == n - start && forall k :: 0 <= k < |word| ==> word[k] == Lower(s[start + k])
  }

  ghost predicate RunFrom(s: string, start: nat, w: string) {
    exists i, j :: start <= i && Run(s, i, j, w)
  }

  /** A run that has come to its end. */
  lemma {:induction false} RunEnds(s: string, start: nat, n: nat, word: string, w: string)
    requires UnderWay(s, start, n, word) && (n == |s| || !IsWord(s[n]))
    ensures RunFrom(s, start, w) <==> w in One(word) || RunFrom(s, n + 1, w)
  {
    if start < n {
      assert Run(s, start, n, word);
    }
    if RunFrom(s, start, w) {
      var i, j :| start <= i && Run(s, i, j, w);
      if i <= n {
        assert i == start && j == n;
        assert w == word;
      }
    }
  }

  lemma {:induction false} ScanRuns(s: string, start: nat, n: nat, word: string, w: string)
    requires UnderWay(s, start, n, word)
    ensures w in Scan(s[n..], word) <==> RunFrom(s, start, w)
    decreases |s| - n
  {
    if n == |s| {
      RunEnds(s, start, n, word, w);
    } else {
      assert s[n..][1..] == s[n + 1..];
      if IsWord(s[n]) {
        ScanRuns(s, start, n + 1, word + [Lower(s[n])], w);
      } else {
        RunEnds(s, start, n, word, w);
        ScanRuns(s, n + 1, n + 1, "", w);
      }
    }
  }

  /** The tokens are exactly the lower-cased whole runs of word characters. */
  lemma {:induction false} TokenizeExactly(s: string, w: string)
    ensures w in Tokenize(s) <==> exists i, j :: Run(s, i, j, w)
  {
    assert s[0..] == s;
    ScanRuns(s, 0, 0, "", w);
    if i, j :| Run(s, i, j, w) {
      assert RunFrom(s, 0, w);
    }
  }

  /** Content tokens are those that are no stopwords. */
  lemma {:induction false} ContentExactly(s: string, w: string)
    ensures w in ContentTokens(s) <==> !IsStopword(w) && exists i, j :: Run(s, i, j, w)
  {
    TokenizeExactly(s, w);
  }
}
