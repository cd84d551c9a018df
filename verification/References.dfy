/** What the two marker patterns find in any text, and what is read back from it: the stripping in
  * internal/rag/faithfulness.go and the citations of internal/rag/cite.go, told by positions. */
module References {
  import opened Decimal
  import opened Markers
  import opened Extractive
  import opened Citations

  /** The characters from `i` to `j` are doc_ and all the digits that follow it, at least one. */
  predicate ReferenceAt(s: string, i: nat, j: nat) {
    && i + 4 < j <= |s| && s[i] == 'd' && s[i + 1] == 'o' && s[i + 2] == 'c' && s[i + 3] == '_'
    && (forall k :: i + 4 <= k < j ==> '0' <= s[k] <= '9') && (j < |s| ==> !('0' <= s[j] <= '9'))
  }

  /** A reference in square brackets. */
  predicate MarkAt(s: string, i: nat, j: nat) {
    i + 1 < j <= |s| && s[i] == '[' && s[j - 1] == ']' && ReferenceAt(s, i + 1, j - 1)
  }

  lemma {:induction false} RefLenAt(s: string, i: nat)
    requires i <= |s|
    ensures RefLen(s[i..]) > 0 ==> ReferenceAt(s, i, i + RefLen(s[i..]))
    ensures forall j :: ReferenceAt(s, i, j) ==> j == i + RefLen(s[i..])
  {
    var t := s[i..];
    if StartsWith(t, "doc_") {
      var n := DigitRun(t[4..]);
      assert t[..4][0] == s[i] && t[..4][1] == s[i + 1] && t[..4][2] == s[i + 2] && t[..4][3] == s[i + 3];
      assert forall k :: 0 <= k < n ==> t[4..][..n][k] == s[i + 4 + k];
      assert n < |t[4..]| ==> t[4..][n] == s[i + 4 + n];
    }
    forall j: nat | ReferenceAt(s, i, j) ensures j == i + RefLen(t) {
      assert t[..4] == "doc_";
      RunLength(t[4..], j - i - 4);
    }
  }

  lemma {:induction false} RunLength(s: string, n: nat)
    requires n <= |s| && (forall k :: 0 <= k < n ==> '0' <= s[k] <= '9') && (n < |s| ==> !('0' <= s[n] <= '9'))
    ensures DigitRun(s) == n
  {
    if n > 0 {
      RunLength(s[1..], n - 1);
    }
  }

  lemma {:induction false} MarkLenAt(s: string, i: nat)
    requires i <= |s|
    ensures MarkLen(s[i..]) > 0 ==> MarkAt(s, i, i + MarkLen(s[i..]))
    ensures forall j :: MarkAt(s, i, j) ==> j == i + MarkLen(s[i..])
  {
    if i < |s| {
      assert s[i..][1..] == s[i + 1..];
      RefLenAt(s, i + 1);
    }
  }

  // ---- the references of a text ----

  ghost predicate BeginsReference(s: string, p: nat) {
    exists j :: ReferenceAt(s, p, j)
  }

  /** `at` lists the places at or behind `n` where a reference begins, in order, and `refs` what stands there. */
  ghost predicate ReadFrom(s: string, n: nat, at: seq<nat>, refs: seq<string>) {
    && |at| == |refs| && (forall i, j :: 0 <= i < j < |at| ==> at[i] < at[j])
    && (forall i :: 0 <= i < |at| ==> ReferenceAt(s, at[i], at[i] + |refs[i]|)
                                      && refs[i] == s[at[i]..at[i] + |refs[i]|])
    && BeginningsFrom(s, n, at)
  }

  ghost predicate BeginningsFrom(s: string, n: nat, at: seq<nat>) {
    forall p :: 0 <= p < |s| ==> (p in at <==> n <= p && BeginsReference(s, p))
  }

  lemma {:induction false} NoneInside(s: string, i: nat, j: nat, p: nat)
    requires ReferenceAt(s, i, j) && i < p < j
    ensures !BeginsReference(s, p)
  {
  }

  lemma {:induction false} ReadPast(s: string, n: nat, at: seq<nat>, refs: seq<string>)
    requires n < |s| && ReadFrom(s, n + 1, at, refs) && !BeginsReference(s, n)
    ensures ReadFrom(s, n, at, refs)
  {
  }

  lemma {:induction false} OneMoreBeginning(s: string, n: nat, m: nat, at: seq<nat>)
    requires ReferenceAt(s, n, m) && BeginningsFrom(s, m, at)
    ensures BeginningsFrom(s, n, [n] + at)
  {
    forall p | 0 <= p < |s| ensures p in [n] + at <==> n <= p && BeginsReference(s, p) {
      if n < p < m {
        NoneInside(s, n, m, p);
      }
    }
  }

  lemma {:induction false} ReadOne(s: string, n: nat, m: nat, at: seq<nat>, refs: seq<string>)
    requires ReferenceAt(s, n, m) && ReadFrom(s, m, at, refs)
    ensures ReadFrom(s, n, [n] + at, [s[n..m]] + refs)
  {
    forall i | 0 <= i < |at| ensures m <= at[i] {
      assert at[i] in at;
    }
    OneMoreBeginning(s, n, m, at);
  }

  lemma {:induction false} RefsFrom(s: string, n: nat) returns (at: seq<nat>)
    requires n <= |s|
    ensures ReadFrom(s, n, at, Refs(s[n..]))
    decreases |s| - n
  {
    RefLenAt(s, n);
    if n == |s| {
      at := [];
    } else if RefLen(s[n..]) > 0 {
      var m := n + RefLen(s[n..]);
      assert s[n..][RefLen(s[n..])..] == s[m..] && s[n..][..RefLen(s[n..])] == s[n..m];
      var later := RefsFrom(s, m);
      ReadOne(s, n, m, later, Refs(s[m..]));
      at := [n] + later;
    } else {
      assert s[n..][1..] == s[n + 1..];
      at := RefsFrom(s, n + 1);
      ReadPast(s, n, at, Refs(s[n + 1..]));
    }
  }

  /** The references found are all that stand in the text, in order. */
  lemma {:induction false} RefsExactly(s: string) returns (at: seq<nat>)
    ensures ReadFrom(s, 0, at, Refs(s))
  {
    assert s[0..] == s;
    at := RefsFrom(s, 0);
  }

  // ---- the text without its marks ----

  ghost predicate InMark(s: string, p: nat) {
    exists i: nat, j: nat :: i <= p < j && MarkAt(s, i, j)
  }

  /** No mark reaches across `n`. */
  ghost predicate Clear(s: string, n: nat) {
    forall i: nat, j: nat :: MarkAt(s, i, j) ==> j <= n || n <= i
  }

  /** `kept` lists the places at or behind `n` that no mark covers, in order, and `t` what stands there. */
  ghost predicate KeptFrom(s: string, n: nat, kept: seq<nat>, t: string) {
    && |kept| == |t| && (forall i, j :: 0 <= i < j < |kept| ==> kept[i] < kept[j])
    && (forall i :: 0 <= i < |kept| ==> kept[i] < |s| && t[i] == s[kept[i]])
    && forall p :: 0 <= p < |s| ==> (p in kept <==> n <= p && !InMark(s, p))
  }

  lemma {:induction false} MarksApart(s: string, a: nat, b: nat, i: nat, j: nat)
    requires MarkAt(s, a, b) && MarkAt(s, i, j) && a < i
    ensures b <= i
  {
    NoBracketInside(s, a + 1, b - 1);
  }

  lemma {:induction false} NoBracketInside(s: string, i: nat, j: nat)
    requires ReferenceAt(s, i, j)
    ensures forall p :: i <= p < j ==> s[p] != '['
  {
  }

  lemma {:induction false} ClearBehindMark(s: string, n: nat, m: nat)
    requires Clear(s, n) && MarkAt(s, n, m)
    ensures Clear(s, m) && forall p :: n <= p < m ==> InMark(s, p)
  {
    MarkLenAt(s, n);
    forall i: nat, j: nat | MarkAt(s, i, j) ensures j <= m || m <= i {
      if n < i {
        MarksApart(s, n, m, i, j);
      }
    }
  }

  lemma {:induction false} ClearBehindOther(s: string, n: nat)
    requires n < |s| && Clear(s, n) && MarkLen(s[n..]) == 0
    ensures Clear(s, n + 1) && !InMark(s, n)
  {
    MarkLenAt(s, n);
    assert forall j: nat :: !MarkAt(s, n, j);
  }

  lemma {:induction false} KeptOne(s: string, n: nat, kept: seq<nat>, t: string)
    requires n < |s| && !InMark(s, n) && KeptFrom(s, n + 1, kept, t)
    ensures KeptFrom(s, n, [n] + kept, [s[n]] + t)
  {
    forall i | 0 <= i < |kept| ensures n < kept[i] {
      assert kept[i] in kept;
    }
  }

  lemma {:induction false} StripFrom(s: string, n: nat) returns (kept: seq<nat>)
    requires n <= |s| && Clear(s, n)
    ensures KeptFrom(s, n, kept, Strip(s[n..]))
    decreases |s| - n
  {
    if n == |s| {
      kept := [];
    } else if MarkLen(s[n..]) > 0 {
      var m := n + MarkLen(s[n..]);
      MarkLenAt(s, n);
      ClearBehindMark(s, n, m);
      assert s[n..][MarkLen(s[n..])..] == s[m..];
      kept := StripFrom(s, m);
    } else {
      ClearBehindOther(s, n);
      assert s[n..][1..] == s[n + 1..];
      var later := StripFrom(s, n + 1);
      KeptOne(s, n, later, Strip(s[n + 1..]));
      kept := [n] + later;
    }
  }

  /** Stripping drops the characters of the bracketed references and keeps all others, in order. */
  lemma {:induction false} StripExactly(s: string) returns (kept: seq<nat>)
    ensures KeptFrom(s, 0, kept, Strip(s))
  {
    assert s[0..] == s;
    kept := StripFrom(s, 0);
  }

  // ---- the citations read back ----

  /** The last source of that marker. */
  ghost predicate LastNamed(sources: seq<Source>, marker: string, k: nat) {
    k < |sources| && sources[k].marker == marker && forall j :: k < j < |sources| ==> sources[j].marker != marker
  }

  lemma {:induction false} ByMarkerLast(sources: seq<Source>, marker: string)
    ensures marker in ByMarker(sources) ==>
              exists k: nat :: LastNamed(sources, marker, k) && ByMarker(sources)[marker] == sources[k]
    ensures forall k: nat :: LastNamed(sources, marker, k) ==> marker in ByMarker(sources)
  {
    if sources != [] {
      var n := |sources| - 1;
      var front := sources[..n];
      ByMarkerLast(front, marker);
      if sources[n].marker == marker {
        assert LastNamed(sources, marker, n);
      } else {
        if marker in ByMarker(front) {
          var k: nat :| LastNamed(front, marker, k) && ByMarker(front)[marker] == front[k];
          assert LastNamed(sources, marker, k);
        }
        forall k: nat | LastNamed(sources, marker, k) ensures marker in ByMarker(sources) {
          assert k != n && LastNamed(front, marker, k);
        }
      }
    }
  }

  /** A reference that names a source and is not a repetition. */
  ghost predicate FirstMention(refs: seq<string>, sources: seq<Source>, p: nat) {
    && p < |refs| && (forall q :: 0 <= q < p ==> refs[q] != refs[p])
    && exists k: nat :: LastNamed(sources, refs[p], k)
  }

  ghost predicate CitesAs(sources: seq<Source>, ref: string, x: Citation) {
    exists k: nat :: LastNamed(sources, ref, k) && x == Citation(ref, sources[k].docId, sources[k].origin)
  }

  /** `at` lists the first mentions at or behind `n`, in order; each is cited under the name of the last
    * source so marked. */
  ghost predicate CitedFrom(refs: seq<string>, sources: seq<Source>, n: nat, at: seq<nat>, cites: seq<Citation>) {
    && |at| == |cites| && (forall i, j :: 0 <= i < j < |at| ==> at[i] < at[j])
    && (forall i :: 0 <= i < |at| ==> at[i] < |refs| && CitesAs(sources, refs[at[i]], cites[i]))
    && forall p :: 0 <= p < |refs| ==> (p in at <==> n <= p && FirstMention(refs, sources, p))
  }

  ghost predicate SeenBefore(refs: seq<string>, n: nat, seen: set<string>) {
    n <= |refs| && forall m :: m in seen <==> exists q :: 0 <= q < n && refs[q] == m
  }

  lemma {:induction false} SeenNext(refs: seq<string>, n: nat, seen: set<string>)
    requires n < |refs| && SeenBefore(refs, n, seen)
    ensures SeenBefore(refs, n + 1, seen + {refs[n]}) && (refs[n] in seen ==> SeenBefore(refs, n + 1, seen))
  {
    assert refs[n] in seen ==> seen + {refs[n]} == seen;
  }

  lemma {:induction false} CitedOne(refs: seq<string>, sources: seq<Source>, n: nat, at: seq<nat>,
                                    cites: seq<Citation>, x: Citation)
    requires n < |refs| && CitedFrom(refs, sources, n + 1, at, cites)
    requires FirstMention(refs, sources, n) && CitesAs(sources, refs[n], x)
    ensures CitedFrom(refs, sources, n, [n] + at, [x] + cites)
  {
    forall i | 0 <= i < |at| ensures n < at[i] {
      assert at[i] in at;
    }
  }

  lemma {:induction false} FirstIfUnseen(refs: seq<string>, sources: seq<Source>, n: nat, seen: set<string>)
    requires n < |refs| && SeenBefore(refs, n, seen)
    ensures FirstMention(refs, sources, n) <==> refs[n] !in seen && refs[n] in ByMarker(sources)
    ensures refs[n] in ByMarker(sources) ==>
              var src := ByMarker(sources)[refs[n]];
              CitesAs(sources, refs[n], Citation(refs[n], src.docId, src.origin))
  {
    ByMarkerLast(sources, refs[n]);
  }

  lemma {:induction false} CitesFrom(refs: seq<string>, sources: seq<Source>, n: nat, seen: set<string>)
    returns (at: seq<nat>)
    requires SeenBefore(refs, n, seen)
    ensures CitedFrom(refs, sources, n, at, CiteRefs(refs[n..], ByMarker(sources), seen))
    decreases |refs| - n
  {
    if n == |refs| {
      at := [];
    } else {
      var m := refs[n];
      assert refs[n..][1..] == refs[n + 1..];
      SeenNext(refs, n, seen);
      FirstIfUnseen(refs, sources, n, seen);
      var next := if m in seen then seen else seen + {m};
      at := CitesFrom(refs, sources, n + 1, next);
      var later := CiteRefs(refs[n + 1..], ByMarker(sources), next);
      if FirstMention(refs, sources, n) {
        var src := ByMarker(sources)[m];
        CitedOne(refs, sources, n, at, later, Citation(m, src.docId, src.origin));
        at := [n] + at;
      } else {
        assert [] + later == later;
      }
    }
  }

  /** What is read back from a text: its references in order of appearance, each cited at its first mention
    * if it names a source. */
  lemma {:induction false} CitationsExactly(text: string, sources: seq<Source>)
    returns (refs: seq<string>, places: seq<nat>, at: seq<nat>)
    ensures ReadFrom(text, 0, places, refs)
    ensures CitedFrom(refs, sources, 0, at, CitationsFromText(text, sources))
  {
    refs := Refs(text);
    places := RefsExactly(text);
    assert refs[0..] == refs;
    at := CitesFrom(refs, sources, 0, {});
  }
}
