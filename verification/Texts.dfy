/** Text helpers shared by the cache key and the sentence splitter. */
module Texts {

  /** unicode.IsSpace */
  predicate IsSpace(c: char) {
    '\t' <= c <= '\r' || c == ' ' || c == '\U{85}' || c == '\U{A0}' || c == '\U{1680}' ||
    '\U{2000}' <= c <= '\U{200A}' || c == '\U{2028}' || c == '\U{2029}' || c == '\U{202F}' ||
    c == '\U{205F}' || c == '\U{3000}'
  }

  function TrimLeft(s: string): string {
    if s != "" && IsSpace(s[0]) then TrimLeft(s[1..]) else s
  }

  function TrimRight(s: string): string {
    if s != "" && IsSpace(s[|s| - 1]) then TrimRight(s[..|s| - 1]) else s
  }

  function TrimSpace(s: string): string {
    TrimRight(TrimLeft(s))
  }

  // ---- what trimming leaves ----

  predicate AllSpaces(s: string) {
    forall i :: 0 <= i < |s| ==> IsSpace(s[i])
  }

  /** `core` is what is left of `query` without the spaces around it. */
  ghost predicate HasCore(query: string, core: string) {
    && (core != "" ==> !IsSpace(core[0]) && !IsSpace(core[|core| - 1]))
    && exists pre, post :: query == pre + core + post && AllSpaces(pre) && AllSpaces(post)
  }

  lemma {:induction false} TrimLeftPast(pre: string, t: string)
    requires AllSpaces(pre) && (t != "" ==> !IsSpace(t[0]))
    ensures TrimLeft(pre + t) == t
  {
    if pre == "" {
      assert pre + t == t;
    } else {
      TrimLeftPast(pre[1..], t);
      assert (pre + t)[1..] == pre[1..] + t;
    }
  }

  lemma {:induction false} TrimRightPast(t: string, post: string)
    requires AllSpaces(post) && (t != "" ==> !IsSpace(t[|t| - 1]))
    ensures TrimRight(t + post) == t
  {
    if post == "" {
      assert t + post == t;
    } else {
      var n := |post| - 1;
      TrimRightPast(t, post[..n]);
      assert (t + post)[..|t + post| - 1] == t + post[..n];
    }
  }

  lemma {:induction false} TrimToCore(query: string, core: string)
    requires HasCore(query, core)
    ensures TrimSpace(query) == core
  {
    var pre, post :| query == pre + core + post && AllSpaces(pre) && AllSpaces(post);
    if core == "" {
      assert query == (pre + post) + "";
      TrimLeftPast(pre + post, "");
    } else {
      assert query == pre + (core + post) && (core + post)[0] == core[0];
      TrimLeftPast(pre, core + post);
      TrimRightPast(core, post);
    }
  }

  lemma {:induction false} LeftSpaces(s: string) returns (pre: string)
    ensures s == pre + TrimLeft(s) && AllSpaces(pre) && (TrimLeft(s) != "" ==> !IsSpace(TrimLeft(s)[0]))
  {
    if s != "" && IsSpace(s[0]) {
      var rest := LeftSpaces(s[1..]);
      pre := [s[0]] + rest;
      assert s == [s[0]] + s[1..];
    } else {
      pre := "";
    }
  }

  lemma {:induction false} RightSpaces(s: string) returns (post: string)
    ensures s == TrimRight(s) + post && AllSpaces(post)
    ensures TrimRight(s) != "" ==> !IsSpace(TrimRight(s)[|TrimRight(s)| - 1])
  {
    if s != "" && IsSpace(s[|s| - 1]) {
      var rest := RightSpaces(s[..|s| - 1]);
      post := rest + [s[|s| - 1]];
      assert s == s[..|s| - 1] + [s[|s| - 1]];
    } else {
      post := "";
    }
  }

  /** Every query has exactly one core. */
  lemma {:induction false} CoreExists(query: string) returns (core: string)
    ensures HasCore(query, core)
    ensures forall other :: HasCore(query, other) ==> other == core
  {
    var pre := LeftSpaces(query);
    var mid := TrimLeft(query);
    var post := RightSpaces(mid);
    core := TrimRight(mid);
    assert query == pre + core + post;
    assert core != "" ==> core[0] == mid[0];
    forall other | HasCore(query, other) ensures other == core {
      TrimToCore(query, other);
      TrimToCore(query, core);
    }
  }
}
