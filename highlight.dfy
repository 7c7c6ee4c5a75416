/** `highlightMatch`, shared by the search box and the results page: the text is split
    with the pattern `(query)` and flags `gi`, and every piece that equals the query
    case-insensitively is wrapped in <strong>. The split follows ECMAScript's
    RegExp.prototype[Symbol.split] step by step, for a query read as a literal. */
module Highlighting {
  import opened Text

  /** The pattern built from `k` matches `t` at index `q` (sticky, case-insensitive). */
  predicate MatchAt(t: string, k: string, q: nat) {
    q + |k| <= |t| && Lower(t[q..q + |k|]) == Lower(k)
  }

  /** No match starts at any index in [p, q). */
  predicate NoMatchIn(t: string, k: string, p: nat, q: nat) {
    forall j :: p <= j < q ==> !MatchAt(t, k, j)
  }

  /** The split loop from its state (p, q): `p` is where the current piece starts,
      `q` the index at which a match is tried next. A match ending where the current
      piece starts (an empty match at p) is skipped; otherwise the piece before it and
      the captured match are emitted and scanning resumes after the match. */
  function SplitFrom(t: string, k: string, p: nat, q: nat): seq<string>
    requires p <= q <= |t|
    decreases |t| - q, q - p
  {
    if q == |t| then [t[p..]]
    else if !MatchAt(t, k, q) then SplitFrom(t, k, p, q + 1)
    else if q + |k| == p then SplitFrom(t, k, p, q + 1)
    else [t[p..q], t[q..q + |k|]] + SplitFrom(t, k, q + |k|, q + |k|)
  }

  /** `t.split(new RegExp('(' + k + ')', 'gi'))`. An empty text gives no pieces when
      the pattern matches the empty string, and the text itself otherwise. */
  function Split(t: string, k: string): seq<string> {
    if t == [] then (if MatchAt(t, k, 0) then [] else [t])
    else SplitFrom(t, k, 0, 0)
  }

  datatype Part = Plain(text: string) | Strong(text: string)

  /** `highlightMatch(t, k)`: each piece of the split, emphasised exactly when its
      lower-case form equals the query's. */
  function Highlight(t: string, k: string): (r: seq<Part>)
    ensures |r| == |Split(t, k)|
    ensures forall i :: 0 <= i < |r| ==> r[i].text == Split(t, k)[i]
    ensures forall i :: 0 <= i < |r| ==> (r[i].Strong? <==> Lower(r[i].text) == Lower(k))
  {
    var pieces := Split(t, k);
    seq(|pieces|, i requires 0 <= i < |pieces| =>
      if Lower(pieces[i]) == Lower(k) then Strong(pieces[i]) else Plain(pieces[i]))
  }

  /** The characters a list of parts displays, in order. */
  function Shown(parts: seq<Part>): string {
    if parts == [] then [] else parts[0].text + Shown(parts[1..])
  }

  lemma {:induction false} SplitFromConcat(t: string, k: string, p: nat, q: nat)
    requires p <= q <= |t|
    ensures Concat(SplitFrom(t, k, p, q)) == t[p..]
    decreases |t| - q, q - p
  {
    if q == |t| {
      assert Concat([t[p..]]) == t[p..] + Concat([]);
    } else if !MatchAt(t, k, q) || q + |k| == p {
      SplitFromConcat(t, k, p, q + 1);
      SkipConcat(t, k, p, q);
    } else {
      SplitFromConcat(t, k, q + |k|, q + |k|);
      EmitConcat(t, k, p, q);
    }
  }

  /** A position passed over leaves the spelled-out text unchanged. */
  lemma SkipConcat(t: string, k: string, p: nat, q: nat)
    requires p <= q < |t| && (!MatchAt(t, k, q) || q + |k| == p)
    requires Concat(SplitFrom(t, k, p, q + 1)) == t[p..]
    ensures Concat(SplitFrom(t, k, p, q)) == t[p..]
  {
    assert SplitFrom(t, k, p, q) == SplitFrom(t, k, p, q + 1);
  }

  /** Emitting the piece before a match and the match keeps the text spelled out. */
  lemma EmitConcat(t: string, k: string, p: nat, q: nat)
    requires p <= q < |t| && MatchAt(t, k, q) && q + |k| != p
    requires Concat(SplitFrom(t, k, q + |k|, q + |k|)) == t[q + |k|..]
    ensures Concat(SplitFrom(t, k, p, q)) == t[p..]
  {
    var rest := SplitFrom(t, k, q + |k|, q + |k|);
    assert SplitFrom(t, k, p, q) == [t[p..q], t[q..q + |k|]] + rest;
    PiecesConcat(t, p, q, q + |k|, rest);
  }

  /** The piece before a match and the match, followed by pieces that spell out the
      rest of the text, spell out the text from the piece's start. */
  lemma PiecesConcat(t: string, p: nat, q: nat, e: nat, rest: seq<string>)
    requires p <= q <= e <= |t| && Concat(rest) == t[e..]
    ensures Concat([t[p..q], t[q..e]] + rest) == t[p..]
  {
    ConcatPair(t[p..q], t[q..e], rest);
    assert t[p..q] + t[q..e] + t[e..] == t[p..];
  }

  lemma ConcatPair(a: string, b: string, rest: seq<string>)
    ensures Concat([a, b] + rest) == a + b + Concat(rest)
  {
    ConcatAppend([a, b], rest);
    assert Concat([a, b]) == a + (b + Concat([]));
  }

  lemma {:induction false} ShownIsConcat(parts: seq<Part>, pieces: seq<string>)
    requires |parts| == |pieces|
    requires forall i :: 0 <= i < |parts| ==> parts[i].text == pieces[i]
    ensures Shown(parts) == Concat(pieces)
  {
    if parts != [] {
      ShownIsConcat(parts[1..], pieces[1..]);
    }
  }

  /** Highlighting loses and adds nothing: the parts spell out the text exactly. */
  lemma HighlightShowsText(t: string, k: string)
    ensures Shown(Highlight(t, k)) == t
  {
    if t != [] {
      SplitFromConcat(t, k, 0, 0);
    }
    ShownIsConcat(Highlight(t, k), Split(t, k));
  }

  /** Pieces at even positions are the text between matches and never equal the query;
      pieces at odd positions are the matches. */
  predicate Alternates(pieces: seq<string>, k: string) {
    && |pieces| % 2 == 1
    && forall i :: 0 <= i < |pieces| ==> (Lower(pieces[i]) == Lower(k) <==> i % 2 == 1)
  }

  lemma LowerEqualLength(a: string, b: string)
    requires Lower(a) == Lower(b)
    ensures |a| == |b|
  {
    assert |Lower(a)| == |a| && |Lower(b)| == |b|;
  }

  lemma {:induction false} SplitFromAlternates(t: string, k: string, p: nat, q: nat)
    requires k != [] && p <= q <= |t|
    requires NoMatchIn(t, k, p, q)
    ensures Alternates(SplitFrom(t, k, p, q), k)
    decreases |t| - q
  {
    if q == |t| {
      if Lower(t[p..]) == Lower(k) {
        LowerEqualLength(t[p..], k);
        assert MatchAt(t, k, p);
        assert false;
      }
    } else if !MatchAt(t, k, q) {
      SplitFromAlternates(t, k, p, q + 1);
    } else {
      SplitFromAlternates(t, k, q + |k|, q + |k|);
      EmitAlternates(t, k, p, q);
    }
  }

  /** The piece before the first match is not the query, the match is, and the pieces
      after it alternate: so the whole list alternates. */
  lemma EmitAlternates(t: string, k: string, p: nat, q: nat)
    requires k != [] && p <= q < |t| && MatchAt(t, k, q)
    requires NoMatchIn(t, k, p, q)
    requires Alternates(SplitFrom(t, k, q + |k|, q + |k|), k)
    ensures Alternates(SplitFrom(t, k, p, q), k)
  {
    var e := q + |k|;
    var rest := SplitFrom(t, k, e, e);
    if Lower(t[p..q]) == Lower(k) {
      LowerEqualLength(t[p..q], k);
      assert t[p..q] == t[p..p + |k|];
      assert MatchAt(t, k, p);
      assert false;
    }
    var r := [t[p..q], t[q..e]] + rest;
    assert SplitFrom(t, k, p, q) == r;
    forall i | 2 <= i < |r|
      ensures Lower(r[i]) == Lower(k) <==> i % 2 == 1
    {
      assert r[i] == rest[i - 2];
    }
  }

  /** `s` holds no occurrence of the query, at any position. */
  predicate NoOccurrence(s: string, k: string) {
    forall j :: 0 <= j <= |s| ==> !MatchAt(s, k, j)
  }

  /** A slice of the text in which no match starts holds no occurrence of the query. */
  lemma SliceHasNoOccurrence(t: string, k: string, p: nat, e: nat)
    requires k != [] && p <= e <= |t|
    requires NoMatchIn(t, k, p, e)
    ensures NoOccurrence(t[p..e], k)
  {
    forall j | 0 <= j <= e - p
      ensures !MatchAt(t[p..e], k, j)
    {
      if MatchAt(t[p..e], k, j) {
        assert t[p..e][j..j + |k|] == t[p + j..p + j + |k|];
        assert MatchAt(t, k, p + j);
        assert false;
      }
    }
  }

  /** The pieces at even positions, the text between matches, hold no occurrence of the
      query: the split leaves no occurrence outside the captured matches. */
  lemma {:induction false} SplitFromEvenClean(t: string, k: string, p: nat, q: nat)
    requires k != [] && p <= q <= |t|
    requires NoMatchIn(t, k, p, q)
    ensures forall i :: 0 <= i < |SplitFrom(t, k, p, q)| && i % 2 == 0 ==>
      NoOccurrence(SplitFrom(t, k, p, q)[i], k)
    decreases |t| - q
  {
    if q == |t| {
      SliceHasNoOccurrence(t, k, p, q);
      assert t[p..q] == t[p..];
      assert SplitFrom(t, k, p, q) == [t[p..]];
    } else if !MatchAt(t, k, q) {
      SplitFromEvenClean(t, k, p, q + 1);
    } else {
      SplitFromEvenClean(t, k, q + |k|, q + |k|);
      EmitEvenClean(t, k, p, q);
    }
  }

  /** The piece before a match holds no occurrence, and the even pieces after the match
      keep their parity: so every even piece is clean. */
  lemma EmitEvenClean(t: string, k: string, p: nat, q: nat)
    requires k != [] && p <= q < |t| && MatchAt(t, k, q)
    requires NoMatchIn(t, k, p, q)
    requires forall i :: 0 <= i < |SplitFrom(t, k, q + |k|, q + |k|)| && i % 2 == 0 ==>
      NoOccurrence(SplitFrom(t, k, q + |k|, q + |k|)[i], k)
    ensures forall i :: 0 <= i < |SplitFrom(t, k, p, q)| && i % 2 == 0 ==>
      NoOccurrence(SplitFrom(t, k, p, q)[i], k)
  {
    var e := q + |k|;
    var rest := SplitFrom(t, k, e, e);
    SliceHasNoOccurrence(t, k, p, q);
    var r := [t[p..q], t[q..e]] + rest;
    assert SplitFrom(t, k, p, q) == r;
    forall i | 2 <= i < |r| && i % 2 == 0
      ensures NoOccurrence(r[i], k)
    {
      assert r[i] == rest[i - 2] && (i - 2) % 2 == 0;
    }
  }

  /** Every occurrence of a non-empty query is emphasised: a plain part holds no
      occurrence of it, and a strong part is one. */
  lemma PlainPartsHoldNoOccurrence(t: string, k: string)
    requires k != []
    ensures forall i :: 0 <= i < |Highlight(t, k)| && Highlight(t, k)[i].Plain? ==>
      NoOccurrence(Highlight(t, k)[i].text, k)
    ensures forall i :: 0 <= i < |Highlight(t, k)| && Highlight(t, k)[i].Strong? ==>
      MatchAt(Highlight(t, k)[i].text, k, 0)
  {
    var r := Highlight(t, k);
    if t == [] {
      assert !MatchAt(t, k, 0);
      assert Split(t, k) == [t];
      assert NoOccurrence(t, k);
    } else {
      SplitFromEvenClean(t, k, 0, 0);
      SplitFromAlternates(t, k, 0, 0);
    }
    forall i | 0 <= i < |r| && r[i].Strong?
      ensures MatchAt(r[i].text, k, 0)
    {
      LowerEqualLength(r[i].text, k);
      assert r[i].text[0..|k|] == r[i].text;
    }
  }

  /** For a non-empty query the emphasised parts are exactly those at odd positions:
      the parts alternate between text that is not the query and an occurrence of it,
      beginning and ending with (possibly empty) plain text. */
  lemma HighlightAlternates(t: string, k: string)
    requires k != []
    ensures |Highlight(t, k)| % 2 == 1
    ensures forall i :: 0 <= i < |Highlight(t, k)| ==> (Highlight(t, k)[i].Strong? <==> i % 2 == 1)
  {
    if t == [] {
      if MatchAt(t, k, 0) {
        LowerEqualLength(t, k);
      }
      assert Split(t, k) == [t];
      if Lower(t) == Lower(k) {
        LowerEqualLength(t, k);
      }
    } else {
      SplitFromAlternates(t, k, 0, 0);
    }
  }

  /** The search form's example: the occurrence of "world" is emphasised, the text
      around it is not, and the text after it is the empty string. */
  lemma HelloWorld()
    ensures Highlight("hello world", "world") == [Plain("hello "), Strong("world"), Plain("")]
  {
    HelloWorldSplit();
    ThreePieces("hello world", "world", "hello ", "");
  }

  /** Three pieces around one occurrence of the query: only the middle one is emphasised
      when the outer two differ from the query in length. */
  lemma ThreePieces(t: string, k: string, a: string, c: string)
    requires Split(t, k) == [a, k, c] && |a| != |k| && |c| != |k|
    ensures Highlight(t, k) == [Plain(a), Strong(k), Plain(c)]
  {
    var r := Highlight(t, k);
    assert |Lower(a)| != |Lower(k)| && |Lower(c)| != |Lower(k)|;
    assert r[0] == Plain(a) && r[1] == Strong(k) && r[2] == Plain(c);
  }

  lemma HelloWorldSplit()
    ensures Split("hello world", "world") == ["hello ", "world", ""]
  {
    var t, k := "hello world", "world";
    forall j | 0 <= j < 6
      ensures !MatchAt(t, k, j)
    {
      FirstCharDiffers(t, k, j);
    }
    assert MatchAt(t, k, 6) by {
      assert t[6..11] == k;
    }
    SplitAroundLast(t, k, 6);
    assert t[..6] == "hello " && t[6..] == "world";
  }

  /** A text whose only occurrence of the query is at its end splits into the text
      before it, the occurrence and an empty last piece. */
  lemma SplitAroundLast(t: string, k: string, q: nat)
    requires k != [] && q + |k| == |t|
    requires NoMatchIn(t, k, 0, q) && MatchAt(t, k, q)
    ensures Split(t, k) == [t[..q], t[q..], ""]
  {
    SkipNoMatch(t, k, 0, 0, q);
    assert SplitFrom(t, k, 0, q) == [t[0..q], t[q..q + |k|]] + SplitFrom(t, k, |t|, |t|);
    assert SplitFrom(t, k, |t|, |t|) == [t[|t|..]];
    assert t[0..q] == t[..q] && t[q..q + |k|] == t[q..] && t[|t|..] == "";
    assert Split(t, k) == SplitFrom(t, k, 0, 0);
  }

  lemma FirstCharDiffers(t: string, k: string, j: nat)
    requires t == "hello world" && k == "world" && j < 6
    ensures !MatchAt(t, k, j)
  {
    assert Lower(t[j..j + 5])[0] == LowerChar(t[j]);
    assert Lower(k)[0] == 'w';
    assert j == 0 || j == 1 || j == 2 || j == 3 || j == 4 || j == 5;
  }

  /** Positions without a match are passed over without emitting anything. */
  lemma {:induction false} SkipNoMatch(t: string, k: string, p: nat, q: nat, q': nat)
    requires k != [] && p <= q <= q' <= |t|
    requires NoMatchIn(t, k, q, q')
    ensures SplitFrom(t, k, p, q) == SplitFrom(t, k, p, q')
    decreases q' - q
  {
    if q < q' {
      SkipNoMatch(t, k, p, q + 1, q');
    }
  }

  /** A text without any occurrence of a non-empty query comes back as one plain part. */
  lemma NoOccurrenceIsPlain(t: string, k: string)
    requires k != []
    requires NoMatchIn(t, k, 0, |t|)
    ensures Highlight(t, k) == [Plain(t)]
  {
    if t == [] {
      if MatchAt(t, k, 0) {
        LowerEqualLength(t, k);
      }
    } else {
      SkipNoMatch(t, k, 0, 0, |t|);
    }
    assert Split(t, k) == [t];
    if Lower(t) == Lower(k) {
      LowerEqualLength(t, k);
      assert MatchAt(t, k, 0);
    }
  }

  lemma {:induction false} EmptyQuerySplitFrom(t: string, p: nat)
    requires p < |t|
    ensures |SplitFrom(t, "", p, p)| == 2 * (|t| - p) - 1
    ensures forall i :: 0 <= i < |t| - p ==> SplitFrom(t, "", p, p)[2 * i] == [t[p + i]]
    ensures forall i :: 0 <= i < |t| - p - 1 ==> SplitFrom(t, "", p, p)[2 * i + 1] == ""
    decreases |t| - p
  {
    assert MatchAt(t, "", p);
    assert SplitFrom(t, "", p, p) == SplitFrom(t, "", p, p + 1);
    if p + 1 == |t| {
      assert SplitFrom(t, "", p, p + 1) == [t[p..]];
    } else {
      assert MatchAt(t, "", p + 1);
      var rest := SplitFrom(t, "", p + 1, p + 1);
      assert SplitFrom(t, "", p, p + 1) == [t[p..p + 1], ""] + rest;
      EmptyQuerySplitFrom(t, p + 1);
      var r := [t[p..p + 1], ""] + rest;
      forall i | 1 <= i < |t| - p
        ensures r[2 * i] == [t[p + i]]
      {
        assert r[2 * i] == rest[2 * (i - 1)];
      }
      forall i | 1 <= i < |t| - p - 1
        ensures r[2 * i + 1] == ""
      {
        assert r[2 * i + 1] == rest[2 * (i - 1) + 1];
      }
    }
  }

  /** With an empty query every character becomes a piece of its own, separated by
      empty matches; the only emphasised parts are those empty ones, so nothing
      visible is emphasised. */
  lemma EmptyQueryEmphasisesNothing(t: string)
    ensures |Highlight(t, "")| == if t == [] then 0 else 2 * |t| - 1
    ensures forall i :: 0 <= i < |t| ==> Highlight(t, "")[2 * i] == Plain([t[i]])
    ensures forall i :: 0 <= i < |Highlight(t, "")| ==> (Highlight(t, "")[i].Strong? <==> Highlight(t, "")[i].text == [])
  {
    if t == [] {
      assert MatchAt(t, "", 0);
    } else {
      EmptyQuerySplitFrom(t, 0);
      forall i | 0 <= i < |t|
        ensures Highlight(t, "")[2 * i] == Plain([t[i]])
      {
        assert |Lower([t[i]])| == 1;
      }
    }
    forall i | 0 <= i < |Highlight(t, "")|
      ensures Highlight(t, "")[i].Strong? <==> Highlight(t, "")[i].text == []
    {
      var s := Highlight(t, "")[i].text;
      assert |Lower(s)| == |s|;
    }
  }
}
