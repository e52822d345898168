/** The redaction that the print stream buffer applies before it publishes. */
module Redaction {
  import opened Sequences
  import opened Splicing
  import opened DottedQuads

  // ----- Leftmost, non-overlapping replacement

  /** The length of the match that a pattern prefers at the start of a text, 0 if there is none. */
  type Matcher = string -> nat

  /** `matcher` finds a word of `language` at the start of a text exactly if there is one. */
  ghost predicate Recognizes(matcher: Matcher, language: string -> bool)
  {
    && (forall s :: matcher(s) <= |s|)
    && (forall s :: 0 < matcher(s) <= |s| ==> language(s[..matcher(s)]))
    && (forall s, w :: w != "" && w <= s && matcher(s) == 0 ==> !language(w))
  }

  /** The leftmost, non-overlapping matches are cut out. */
  function Cuts(matcher: Matcher, s: string): seq<Chunk>
    decreases |s|
  {
    if s == "" then
      []
    else if 0 < matcher(s) <= |s| then
      [Cut(s[..matcher(s)])] + Cuts(matcher, s[matcher(s)..])
    else
      [Keep(s[0])] + Cuts(matcher, s[1..])
  }

  lemma CutsAtMatch(matcher: Matcher, s: string, marker: string)
    requires 0 < matcher(s) <= |s|
    ensures Source(Cuts(matcher, s)) == s[..matcher(s)] + Source(Cuts(matcher, s[matcher(s)..]))
    ensures Spliced(Cuts(matcher, s), marker) == marker + Spliced(Cuts(matcher, s[matcher(s)..]), marker)
  {
    assert Cuts(matcher, s)[1..] == Cuts(matcher, s[matcher(s)..]);
  }

  lemma CutsElsewhere(matcher: Matcher, s: string, marker: string)
    requires !(0 < matcher(s) <= |s|) && s != ""
    ensures Source(Cuts(matcher, s)) == [s[0]] + Source(Cuts(matcher, s[1..]))
    ensures Spliced(Cuts(matcher, s), marker) == [s[0]] + Spliced(Cuts(matcher, s[1..]), marker)
  {
    assert Cuts(matcher, s)[1..] == Cuts(matcher, s[1..]);
  }

  lemma TextIsKept(matcher: Matcher, s: string, n: nat)
    requires 1 <= n <= |s| && n == (if 0 < matcher(s) <= |s| then matcher(s) else 1)
    requires Source(Cuts(matcher, s[n..])) == s[n..]
    ensures Source(Cuts(matcher, s)) == s
  {
    var front, rest := s[..n], s[n..];
    if 0 < matcher(s) <= |s| {
      CutsAtMatch(matcher, s, "");
    } else {
      CutsElsewhere(matcher, s, "");
      assert front == [s[0]];
    }
    assert Source(Cuts(matcher, s)) == front + rest;
  }

  /** The text outside the matches stays, in order ... */
  lemma {:induction false} CutsKeepTheText(matcher: Matcher, s: string)
    ensures Source(Cuts(matcher, s)) == s
    decreases |s|
  {
    if s != "" {
      var n := if 0 < matcher(s) <= |s| then matcher(s) else 1;
      CutsKeepTheText(matcher, s[n..]);
      TextIsKept(matcher, s, n);
    }
  }

  /** ... and only words of the language are cut out of it. */
  lemma {:induction false} CutsAreMatches(matcher: Matcher, language: string -> bool, s: string, i: nat)
    requires Recognizes(matcher, language)
    requires i < |Cuts(matcher, s)| && Cuts(matcher, s)[i].Cut?
    ensures language(Cuts(matcher, s)[i].text)
    decreases |s|
  {
    if i > 0 {
      var rest := if 0 < matcher(s) then s[matcher(s)..] else s[1..];
      assert Cuts(matcher, s)[1..] == Cuts(matcher, rest);
      CutsAreMatches(matcher, language, rest, i - 1);
    }
  }

  /** Because matches are searched from the left, nothing of the language stays in one piece. */
  lemma {:induction false} NoMatchIsKept(matcher: Matcher, language: string -> bool, s: string, w: string, i: nat)
    requires Recognizes(matcher, language)
    requires w != "" && KeptAt(Cuts(matcher, s), w, i)
    ensures !language(w)
    decreases |s|
  {
    var chunks, n := Cuts(matcher, s), matcher(s);
    if i == 0 {
      assert chunks[0..|w|][0] == Keep(w[0]);
      KeptIsPrefixOfSource(chunks, w);
      CutsKeepTheText(matcher, s);
    } else {
      assert chunks[1..][i - 1..i - 1 + |w|] == chunks[i..i + |w|];
      NoMatchIsKept(matcher, language, if n > 0 then s[n..] else s[1..], w, i - 1);
    }
  }

  /** What the pattern matches and cannot overlap the marker is gone after the replacement. */
  lemma {:induction false} MatchesAreGone(matcher: Matcher, language: string -> bool, s: string, marker: string,
                                          w: string)
    requires Recognizes(matcher, language)
    requires w != "" && marker != "" && !Overlaps(w, marker) && language(w)
    ensures !Occurs(w, Spliced(Cuts(matcher, s), marker))
  {
    if Occurs(w, Spliced(Cuts(matcher, s), marker)) {
      var p: nat :| OccursAt(w, Spliced(Cuts(matcher, s), marker), p);
      FoundWhereKept(Cuts(matcher, s), marker, w, p);
      var i: nat :| KeptAt(Cuts(matcher, s), w, i);
      NoMatchIsKept(matcher, language, s, w, i);
    }
  }

  function Literal(text: string): Matcher
  {
    (s: string) => if text <= s then |text| else 0
  }

  lemma LiteralIsRecognized(text: string)
    requires text != ""
    ensures Recognizes(Literal(text), w => w == text)
  {
    assert forall s: string :: Literal(text)(s) > 0 ==> s[..|text|] == text;
  }

  function DottedQuad(): Matcher
  {
    (s: string) => if QuadLengths(s) == [] then 0 else QuadLengths(s)[0]
  }

  lemma DottedQuadIsRecognized()
    ensures Recognizes(DottedQuad(), w => IsQuad(w))
  {
    forall s: string ensures DottedQuad()(s) <= |s| && (DottedQuad()(s) > 0 ==> IsQuad(s[..DottedQuad()(s)])) {
      if QuadLengths(s) != [] {
        QuadPatternIsQuad(s, QuadLengths(s)[0]);
      }
    }
    forall s: string, w: string | w != "" && w <= s && DottedQuad()(s) == 0 ensures !IsQuad(w) {
      QuadPatternIsQuad(s, |w|);
      QuadPatternIsQuad(s, 0);
      assert s[..|w|] == w;
    }
  }

  // ----- Replacing the value of one environment variable

  /** An empty text is found before, between and after all characters. */
  function Gaps(s: string): seq<Chunk>
  {
    if s == "" then [Cut("")] else [Cut(""), Keep(s[0])] + Gaps(s[1..])
  }

  function ReplaceAll(s: string, text: string, marker: string): string
  {
    Spliced(if text == "" then Gaps(s) else Cuts(Literal(text), s), marker)
  }

  lemma {:induction false} GapsKeepTheText(s: string)
    ensures Source(Gaps(s)) == s
  {
    if s != "" {
      GapsKeepTheText(s[1..]);
      var chunks := Gaps(s);
      assert chunks[1..][1..] == Gaps(s[1..]);
      assert Source(chunks) == "" + Source(chunks[1..]);
      assert Source(chunks[1..]) == [s[0]] + s[1..];
    }
  }

  lemma ReplaceAllCreatesNothing(s: string, text: string, marker: string, v: string)
    requires v != "" && marker != "" && !Overlaps(v, marker) && !Occurs(v, s)
    ensures !Occurs(v, ReplaceAll(s, text, marker))
  {
    if text == "" {
      GapsKeepTheText(s);
    } else {
      CutsKeepTheText(Literal(text), s);
    }
    NothingIsCreated(if text == "" then Gaps(s) else Cuts(Literal(text), s), marker, v);
  }

  lemma ValueIsGone(s: string, v: string, marker: string)
    requires v != "" && marker != "" && !Overlaps(v, marker)
    ensures !Occurs(v, ReplaceAll(s, v, marker))
  {
    LiteralIsRecognized(v);
    MatchesAreGone(Literal(v), w => w == v, s, marker, v);
  }

  // ----- When a value can leak through its own replacement

  lemma {:induction false} ReplaceAllShorter(s: string, text: string, marker: string)
    requires |s| < |text|
    ensures ReplaceAll(s, text, marker) == s
  {
    if s != "" {
      ReplaceAllShorter(s[1..], text, marker);
      CutsElsewhere(Literal(text), s, marker);
      assert s == [s[0]] + s[1..];
    }
  }

  lemma ReplaceAllAtStart(s: string, text: string, marker: string)
    requires text != ""
    ensures ReplaceAll(text + s, text, marker) == marker + ReplaceAll(s, text, marker)
  {
    assert text <= text + s && (text + s)[|text|..] == s;
    CutsAtMatch(Literal(text), text + s, marker);
  }

  /** Nothing is replaced before the first match. */
  lemma {:induction false} SplicedAfter(matcher: Matcher, s: string, k: nat, marker: string)
    requires k <= |s| && forall p :: 0 <= p < k ==> matcher(s[p..]) == 0
    ensures Spliced(Cuts(matcher, s), marker) == s[..k] + Spliced(Cuts(matcher, s[k..]), marker)
  {
    if k == 0 {
      assert s[0..] == s;
    } else {
      SplicedAfter(matcher, s, k - 1, marker);
      CutsElsewhere(matcher, s[k - 1..], marker);
      assert s[k - 1..][1..] == s[k..] && s[k - 1..][..1] == [s[k - 1]];
      assert s[..k - 1] + [s[k - 1]] == s[..k];
      ConcatIsAssociative(s[..k - 1], [s[k - 1]], Spliced(Cuts(matcher, s[k..]), marker));
    }
  }

  /** The part of `v` before, and the part after a marker that it is laid over at distance `d`. */
  function Before(v: string, d: int): string
    requires -|v| < d
  {
    if d < 0 then v[..-d] else ""
  }

  function After(v: string, marker: string, d: int): string
    requires -|v| < d < |marker|
  {
    if |marker| - d < |v| then v[|marker| - d..] else ""
  }

  lemma AroundMarker(v: string, marker: string, d: int)
    requires OverlapsAt(v, marker, d)
    ensures Occurs(v, Before(v, d) + (marker + After(v, marker, d)))
  {
    var r := Before(v, d) + (marker + After(v, marker, d));
    var p := if d < 0 then 0 else d;
    assert r[p..p + |v|] == v;
    assert OccursAt(v, r, p);
  }

  /** A value that can overlap its marker comes back in the replacement of some text, which
      consists of parts of it. */
  lemma OverlapLeaks(v: string, marker: string, d: int) returns (s: string, e: int)
    requires v != "" && marker != "" && marker[0] == marker[|marker| - 1] && OverlapsAt(v, marker, d)
    ensures forall c :: c in s ==> c in v
    ensures OverlapsAt(v, marker, e) && ReplaceAll(s, v, marker) == Before(v, e) + (marker + After(v, marker, e))
  {
    e := if d < 0 && v[0] == marker[0] then |marker| - 1 else d;
    assert OverlapsAt(v, marker, e);
    s := Before(v, e) + (v + After(v, marker, e));
    forall p | 0 <= p < |Before(v, e)| ensures Literal(v)(s[p..]) == 0 {
      assert v[-e] == marker[0];
      assert s[p..][0] == v[p] && s[p..][-e] == v[p];
    }
    ReplacedOnce(v, marker, Before(v, e), After(v, marker, e));
  }

  lemma ReplacedOnce(v: string, marker: string, x: string, y: string)
    requires v != "" && |y| < |v|
    requires forall p :: 0 <= p < |x| ==> Literal(v)((x + (v + y))[p..]) == 0
    ensures ReplaceAll(x + (v + y), v, marker) == x + (marker + y)
  {
    var s := x + (v + y);
    SplicedAfter(Literal(v), s, |x|, marker);
    assert s[..|x|] == x && s[|x|..] == v + y;
    ReplaceAllAtStart(y, v, marker);
    ReplaceAllShorter(y, v, marker);
  }

  /** Exactly the values that cannot overlap their marker are removed from every text. */
  lemma ValueIsRemovedIffNoOverlap(v: string, marker: string)
    requires v != "" && marker != "" && marker[0] == marker[|marker| - 1]
    ensures (forall s :: !Occurs(v, ReplaceAll(s, v, marker))) <==> !Overlaps(v, marker)
  {
    if Overlaps(v, marker) {
      var d :| OverlapsAt(v, marker, d);
      var s, e := OverlapLeaks(v, marker, d);
      AroundMarker(v, marker, e);
      assert Occurs(v, ReplaceAll(s, v, marker));
    } else {
      forall s ensures !Occurs(v, ReplaceAll(s, v, marker)) {
        ValueIsGone(s, v, marker);
      }
    }
  }

  // ----- The whole redaction

  function EnvMarker(key: string): string
  {
    "-ENV:" + key + ":REDACTED-"
  }

  const IP_MARKER := "-IP REDACTED-"

  function RedactIPs(s: string): string
  {
    Spliced(Cuts(DottedQuad(), s), IP_MARKER)
  }

  /** The loop over the environment, which takes its variables in the given order. */
  function RedactEnvs(envs: map<string, string>, order: seq<string>, s: string): string
    requires forall k :: k in order ==> k in envs
  {
    if order == [] then
      s
    else
      var k := order[|order| - 1];
      var front := RedactEnvs(envs, order[..|order| - 1], s);
      if k != "CI" then ReplaceAll(front, envs[k], EnvMarker(k)) else front
  }

  function Redact(envs: map<string, string>, order: seq<string>, s: string): string
    requires forall k :: k in order ==> k in envs
  {
    RedactIPs(RedactEnvs(envs, order, s))
  }

  /** A Go map may be iterated in any order, each key once. */
  ghost predicate IsOrder(order: seq<string>, keys: set<string>)
  {
    && (forall k :: k in order <==> k in keys)
    && (forall i, j :: 0 <= i < j < |order| ==> order[i] != order[j])
  }

  /** The value can be told from every marker that redaction inserts. */
  ghost predicate ClearOfMarkers(envs: map<string, string>, v: string)
  {
    && !Overlaps(v, IP_MARKER)
    && forall k :: k in envs && k != "CI" ==> !Overlaps(v, EnvMarker(k))
  }

  lemma {:induction false} EnvValueIsGone(envs: map<string, string>, order: seq<string>, s: string, key: string)
    requires forall k :: k in order ==> k in envs
    requires key in order && key != "CI" && envs[key] != "" && ClearOfMarkers(envs, envs[key])
    ensures !Occurs(envs[key], RedactEnvs(envs, order, s))
  {
    var front, k := order[..|order| - 1], order[|order| - 1];
    assert order == front + [k];
    var before := RedactEnvs(envs, front, s);
    if k == key {
      ValueIsGone(before, envs[key], EnvMarker(key));
    } else {
      EnvValueIsGone(envs, front, s, key);
      if k != "CI" {
        ReplaceAllCreatesNothing(before, envs[k], EnvMarker(k), envs[key]);
      }
    }
  }

  /** In whatever order the variables are taken, no value but that of CI is left in the redacted
      text, provided that it is not empty and clear of all the markers. */
  lemma NoEnvValueSurvives(envs: map<string, string>, order: seq<string>, s: string, key: string)
    requires IsOrder(order, envs.Keys)
    requires key in envs && key != "CI" && envs[key] != "" && ClearOfMarkers(envs, envs[key])
    ensures !Occurs(envs[key], Redact(envs, order, s))
  {
    EnvValueIsGone(envs, order, s, key);
    var text := RedactEnvs(envs, order, s);
    CutsKeepTheText(DottedQuad(), text);
    NothingIsCreated(Cuts(DottedQuad(), text), IP_MARKER, envs[key]);
  }

  /** Redacting addresses replaces dotted quads of bytes and leaves everything else as it was. */
  lemma {:induction false} OnlyQuadsAreRedacted(s: string) returns (chunks: seq<Chunk>)
    ensures Source(chunks) == s && Spliced(chunks, IP_MARKER) == RedactIPs(s)
    ensures forall i :: 0 <= i < |chunks| && chunks[i].Cut? ==> IsQuad(chunks[i].text)
  {
    chunks := Cuts(DottedQuad(), s);
    CutsKeepTheText(DottedQuad(), s);
    DottedQuadIsRecognized();
    forall i | 0 <= i < |chunks| && chunks[i].Cut? ensures IsQuad(chunks[i].text) {
      CutsAreMatches(DottedQuad(), w => IsQuad(w), s, i);
    }
  }

  lemma {:induction false} TailCharacters(w: string, n: nat)
    requires IsTail(w, n)
    ensures forall i :: 0 <= i < |w| ==> IsDigit(w[i]) || w[i] == '.'
  {
    if n > 0 {
      var l: nat :| IsTailFrom(w, n, l);
      TailCharacters(w[1 + l..], n - 1);
      forall i | 0 <= i < |w| ensures IsDigit(w[i]) || w[i] == '.' {
        assert 0 < i <= l ==> w[i] == w[1..1 + l][i - 1];
        assert l < i ==> w[i] == w[1 + l..][i - 1 - l];
      }
    }
  }

  lemma MarkerCharacters(i: nat)
    requires i < |IP_MARKER|
    ensures !IsDigit(IP_MARKER[i]) && IP_MARKER[i] != '.'
  {
  }

  lemma QuadsAvoidTheMarker(w: string)
    requires IsQuad(w)
    ensures w != "" && !Overlaps(w, IP_MARKER)
  {
    var l: nat :| IsQuadFrom(w, l);
    TailCharacters(w[l..], 3);
    assert w == w[..l] + w[l..];
    forall d ensures !OverlapsAt(w, IP_MARKER, d) {
      if -|w| < d < |IP_MARKER| {
        var i := if d < 0 then -d else 0;
        MarkerCharacters(i + d);
        assert w[i] != IP_MARKER[i + d];
      }
    }
  }

  /** No dotted quad of bytes is left in the redacted text, whatever stood around it. */
  lemma NoQuadSurvives(envs: map<string, string>, order: seq<string>, s: string, w: string)
    requires IsOrder(order, envs.Keys)
    requires IsQuad(w)
    ensures !Occurs(w, Redact(envs, order, s))
  {
    QuadsAvoidTheMarker(w);
    DottedQuadIsRecognized();
    MatchesAreGone(DottedQuad(), w => IsQuad(w), RedactEnvs(envs, order, s), IP_MARKER, w);
  }

  lemma DashlessOverlapIsInside(v: string, marker: string, d: int)
    requires '-' !in v && marker != "" && marker[0] == marker[|marker| - 1] == '-'
    requires OverlapsAt(v, marker, d)
    ensures 0 <= d && d + |v| <= |marker|
  {
    if d < 0 {
      SharedPlace(v, marker, d, 0);
    } else if d + |v| > |marker| {
      SharedPlace(v, marker, d, |marker| - 1);
    }
  }

  lemma SharedPlace(v: string, marker: string, d: int, j: nat)
    requires OverlapsAt(v, marker, d) && j < |marker| && 0 <= j - d < |v|
    ensures marker[j] in v
  {
    assert v[j - d] == marker[j];
  }

  /** A value without a dash is clear of a marker exactly if it is not a part of it. */
  lemma DashlessValueOverlapsIffInside(v: string, marker: string)
    requires v != "" && '-' !in v && marker != "" && marker[0] == marker[|marker| - 1] == '-'
    ensures Overlaps(v, marker) <==> Occurs(v, marker)
  {
    if Overlaps(v, marker) {
      var d :| OverlapsAt(v, marker, d);
      DashlessOverlapIsInside(v, marker, d);
      assert marker[d..d + |v|] == v;
      assert OccursAt(v, marker, d);
    }
    if Occurs(v, marker) {
      var p: nat :| OccursAt(v, marker, p);
      assert forall i :: 0 <= i < |v| ==> v[i] == marker[p..p + |v|][i];
      assert OverlapsAt(v, marker, p);
    }
  }

  /** So a value without a dash is removed from every text exactly if the marker put in its place does
      not contain it. */
  lemma DashlessValueIsRemovedIff(v: string, key: string)
    requires v != "" && '-' !in v
    ensures (forall s :: !Occurs(v, ReplaceAll(s, v, EnvMarker(key)))) <==> !Occurs(v, EnvMarker(key))
  {
    var marker := EnvMarker(key);
    assert marker[0] == marker[|marker| - 1] == '-';
    ValueIsRemovedIffNoOverlap(v, marker);
    DashlessValueOverlapsIffInside(v, marker);
  }
}
