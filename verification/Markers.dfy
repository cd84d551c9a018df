/** Citation markers in running text: the patterns \[doc_\d+\] of internal/rag/faithfulness.go and
  * doc_(\d+) of internal/rag/cite.go. */
module Markers {
  import opened Decimal

  function DigitRun(s: string): (n: nat)
    ensures n <= |s| && AllDigits(s[..n]) && (n == |s| || !IsDigit(s[n]))
  {
    if s != "" && IsDigit(s[0]) then
      var n := DigitRun(s[1..]);
      assert s[..n + 1] == [s[0]] + s[1..][..n];
      n + 1
    else 0
  }

  predicate StartsWith(s: string, p: string) {
    |p| <= |s| && s[..|p|] == p
  }

  /** The length of a match of doc_\d+ at the start of `s`, or 0. */
  function RefLen(s: string): (n: nat)
    ensures n <= |s|
  {
    if StartsWith(s, "doc_") && DigitRun(s[4..]) > 0 then 4 + DigitRun(s[4..]) else 0
  }

  /** The length of a match of \[doc_\d+\] at the start of `s`, or 0. */
  function MarkLen(s: string): (n: nat)
    ensures n <= |s|
  {
    if s != "" && s[0] == '[' && RefLen(s[1..]) > 0 && RefLen(s[1..]) + 1 < |s| && s[RefLen(s[1..]) + 1] == ']'
    then RefLen(s[1..]) + 2 else 0
  }

  /** ReplaceAllString with the empty string. */
  function Strip(s: string): string
    decreases |s|
  {
    if s == "" then "" else if MarkLen(s) > 0 then Strip(s[MarkLen(s)..]) else [s[0]] + Strip(s[1..])
  }

  /** FindAllString: the references in order of appearance. */
  function Refs(s: string): seq<string>
    decreases |s|
  {
    if s == "" then [] else if RefLen(s) > 0 then [s[..RefLen(s)]] + Refs(s[RefLen(s)..]) else Refs(s[1..])
  }

  /** No doc_N anywhere in the text. */
  predicate NoRef(s: string) {
    s == "" || (RefLen(s) == 0 && NoRef(s[1..]))
  }

  /** No [doc_N] anywhere in the text. */
  predicate NoMark(s: string) {
    s == "" || (MarkLen(s) == 0 && NoMark(s[1..]))
  }

  function Marker(n: nat): string {
    "doc_" + Numeral(n)
  }

  predicate IsMarker(m: string) {
    StartsWith(m, "doc_") && |m| > 4 && AllDigits(m[4..])
  }

  lemma {:induction false} MarkerIsMarker(n: nat)
    ensures IsMarker(Marker(n))
  {
    assert Marker(n)[..4] == "doc_" && Marker(n)[4..] == Numeral(n);
  }

  lemma {:induction false} DigitRunAppend(s: string, t: string)
    requires t == "" || !IsDigit(t[0]) || DigitRun(s) < |s|
    ensures DigitRun(s + t) == DigitRun(s)
  {
    if s == "" {
      assert s + t == t;
    } else if IsDigit(s[0]) {
      assert (s + t)[1..] == s[1..] + t;
      DigitRunAppend(s[1..], t);
    }
  }

  lemma {:induction false} DigitRunAll(s: string)
    requires AllDigits(s)
    ensures DigitRun(s) == |s|
  {
    if s != "" {
      DigitRunAll(s[1..]);
    }
  }

  /** A stop character, neither digit nor letter of the pattern, ends every match. */
  predicate IsStop(c: char) {
    !IsDigit(c) && c != 'd' && c != 'o' && c != 'c' && c != '_' && c != '[' && c != ']'
  }

  lemma {:induction false} RefLenStop(s: string, t: string)
    requires t != "" && IsStop(t[0])
    ensures RefLen(s + t) == RefLen(s)
  {
    if |s| >= 4 {
      assert (s + t)[..4] == s[..4] && (s + t)[4..] == s[4..] + t;
      DigitRunAppend(s[4..], t);
    } else {
      if |s + t| >= 4 {
        assert (s + t)[..4][|s|] == t[0];
      }
    }
  }

  lemma {:induction false} MarkLenStop(s: string, t: string)
    requires t != "" && IsStop(t[0])
    ensures MarkLen(s + t) == MarkLen(s)
  {
    if s == "" {
      assert s + t == t;
    } else {
      assert (s + t)[1..] == s[1..] + t && (s + t)[0] == s[0];
      RefLenStop(s[1..], t);
      assert RefLen(s[1..]) + 1 == |s| ==> (s + t)[|s|] == t[0];
    }
  }

  /** A whole marker is recognised whatever follows its bracket. */
  lemma {:induction false} MarkerRef(m: string, t: string)
    requires IsMarker(m) && (t == "" || !IsDigit(t[0]))
    ensures RefLen(m + t) == |m|
  {
    assert (m + t)[..4] == m[..4] && (m + t)[4..] == m[4..] + t;
    DigitRunAll(m[4..]);
    DigitRunAppend(m[4..], t);
  }

  lemma {:induction false} BracketedMark(m: string, t: string)
    requires IsMarker(m)
    ensures MarkLen("[" + m + "]" + t) == |m| + 2
  {
    var s := "[" + m + "]" + t;
    assert s[1..] == m + ("]" + t);
    MarkerRef(m, "]" + t);
    assert s[|m| + 1] == ']';
  }

  /** Text without markers, followed by a stop, passes the stripper unchanged. */
  lemma {:induction false} StripPlain(s: string, t: string)
    requires NoMark(s) && t != "" && IsStop(t[0])
    ensures Strip(s + t) == s + Strip(t)
  {
    if s == "" {
      assert s + t == t && s + Strip(t) == Strip(t);
    } else {
      MarkLenStop(s, t);
      StripPlain(s[1..], t);
      ConsAppend(s, t);
      StripOne(s[0], s[1..] + t);
      ConsAppend(s, Strip(t));
    }
  }

  lemma {:induction false} ConsAppend(s: string, t: string)
    requires s != ""
    ensures s + t == [s[0]] + (s[1..] + t)
  {
  }

  lemma {:induction false} StripOne(c: char, t: string)
    requires MarkLen([c] + t) == 0
    ensures Strip([c] + t) == [c] + Strip(t)
  {
    assert ([c] + t)[1..] == t;
  }

  lemma {:induction false} RefsPlain(s: string, t: string)
    requires NoRef(s) && t != "" && IsStop(t[0])
    ensures Refs(s + t) == Refs(t)
  {
    if s == "" {
      assert s + t == t;
    } else {
      RefLenStop(s, t);
      RefsPlain(s[1..], t);
      assert (s + t)[1..] == s[1..] + t;
    }
  }

  lemma {:induction false} RefLenPrefix(s: string, t: string)
    requires RefLen(s) > 0
    ensures RefLen(s + t) > 0 && (RefLen(s) < |s| ==> RefLen(s + t) == RefLen(s))
  {
    assert (s + t)[..4] == s[..4] && (s + t)[4..] == s[4..] + t;
    assert IsDigit(s[4..][0]);
    assert (s[4..] + t)[0] == s[4..][0];
    if RefLen(s) < |s| {
      DigitRunAppend(s[4..], t);
    }
  }

  lemma {:induction false} MarkLenPrefix(s: string, t: string)
    requires MarkLen(s) > 0
    ensures MarkLen(s + t) > 0
  {
    assert (s + t)[1..] == s[1..] + t && (s + t)[0] == s[0];
    RefLenPrefix(s[1..], t);
  }

  /** A piece of a marker-free text is marker free. */
  lemma {:induction false} PieceNoMark(pre: string, s: string, post: string)
    requires NoMark(pre + s + post)
    ensures NoMark(s)
    decreases |pre|, |s|
  {
    var text := pre + s + post;
    if pre != "" {
      assert text[1..] == pre[1..] + s + post;
      PieceNoMark(pre[1..], s, post);
    } else if s != "" {
      assert text == s + post && text[1..] == "" + s[1..] + post;
      PieceNoMark("", s[1..], post);
      if MarkLen(s) > 0 {
        MarkLenPrefix(s, post);
      }
    }
  }

  lemma {:induction false} PieceNoRef(pre: string, s: string, post: string)
    requires NoRef(pre + s + post)
    ensures NoRef(s)
    decreases |pre|, |s|
  {
    var text := pre + s + post;
    if pre != "" {
      assert text[1..] == pre[1..] + s + post;
      PieceNoRef(pre[1..], s, post);
    } else if s != "" {
      assert text == s + post && text[1..] == "" + s[1..] + post;
      PieceNoRef("", s[1..], post);
      if RefLen(s) > 0 {
        RefLenPrefix(s, post);
      }
    }
  }

  lemma {:induction false} StripMark(m: string, rest: string)
    requires IsMarker(m)
    ensures Strip("[" + m + "]" + rest) == Strip(rest)
  {
    BracketedMark(m, rest);
    assert ("[" + m + "]" + rest)[|m| + 2..] == rest;
  }

  lemma {:induction false} Layout(s: string, m: string, rest: string)
    ensures s + " [" + m + "]" + rest == s + (" " + ("[" + m + "]" + rest))
    ensures s + " [" + m + "]" + rest == s + (" " + ("[" + (m + ("]" + rest))))
  {
  }

  lemma {:induction false} Regroup(s: string, t: string)
    ensures s + ([' '] + t) == s + " " + t
  {
  }

  lemma {:induction false} StripBlank(t: string)
    ensures Strip(" " + t) == [' '] + Strip(t)
  {
    StripOne(' ', t);
  }

  /** One printed part: a sentence, a blank, a bracketed marker, and what follows. */
  lemma {:induction false} StripPart(s: string, m: string, rest: string)
    requires NoMark(s) && IsMarker(m)
    ensures Strip(s + " [" + m + "]" + rest) == s + " " + Strip(rest)
  {
    var mark := "[" + m + "]" + rest;
    Layout(s, m, rest);
    StripPlain(s, " " + mark);
    StripBlank(mark);
    StripMark(m, rest);
    Regroup(s, Strip(rest));
  }

  lemma {:induction false} RefsSkip(c: char, t: string)
    requires c != 'd'
    ensures Refs([c] + t) == Refs(t)
  {
    var s := [c] + t;
    assert s[1..] == t;
    if |s| >= 4 {
      assert s[..4][0] == c;
    }
  }

  lemma {:induction false} RefsPart(s: string, m: string, rest: string)
    requires NoRef(s) && IsMarker(m)
    ensures Refs(s + " [" + m + "]" + rest) == [m] + Refs(rest)
  {
    var ref := m + ("]" + rest);
    var t := " " + ("[" + ref);
    Layout(s, m, rest);
    RefsPlain(s, t);
    RefsSkip(' ', "[" + ref);
    RefsSkip('[', ref);
    MarkerRef(m, "]" + rest);
    assert ref[..|m|] == m && ref[|m|..] == "]" + rest;
    RefsSkip(']', rest);
  }
}
