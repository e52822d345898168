/** Replacing parts of a text by a marker, and what can be found in the result. */
module Splicing {

  /** A text cut into characters that stay and stretches that a marker replaces. */
  datatype Chunk = Keep(c: char) | Cut(text: string)

  function Source(chunks: seq<Chunk>): string
  {
    if chunks == [] then
      ""
    else
      (match chunks[0]
       case Keep(c) => [c]
       case Cut(text) => text) + Source(chunks[1..])
  }

  function Spliced(chunks: seq<Chunk>, marker: string): string
  {
    if chunks == [] then
      ""
    else
      (match chunks[0]
       case Keep(c) => [c]
       case Cut(_) => marker) + Spliced(chunks[1..], marker)
  }

  predicate OccursAt(v: string, s: string, p: nat)
  {
    p + |v| <= |s| && s[p..p + |v|] == v
  }

  ghost predicate Occurs(v: string, s: string)
  {
    exists p: nat :: OccursAt(v, s, p)
  }

  /** `v`, laid over `marker` at distance `d`, shares at least one place with it and agrees on
      every place they share. */
  predicate OverlapsAt(v: string, marker: string, d: int)
  {
    -|v| < d < |marker| && forall i :: 0 <= i < |v| && 0 <= i + d < |marker| ==> v[i] == marker[i + d]
  }

  ghost predicate Overlaps(v: string, marker: string)
  {
    exists d :: OverlapsAt(v, marker, d)
  }

  lemma PrefixOverlaps(v: string, marker: string, rest: string, k: nat)
    requires marker != "" && k < |v| && v[k..] <= marker + rest
    ensures Overlaps(v, marker)
  {
    forall i | 0 <= i < |v| && 0 <= i - k < |marker| ensures v[i] == marker[i - k] {
      assert v[k..][i - k] == (marker + rest)[i - k];
    }
    assert OverlapsAt(v, marker, 0 - k);
  }

  lemma OccurrenceOverlaps(v: string, marker: string, rest: string, p: nat)
    requires v != "" && p < |marker| && OccursAt(v, marker + rest, p)
    ensures Overlaps(v, marker)
  {
    forall i | 0 <= i < |v| && 0 <= i + p < |marker| ensures v[i] == marker[i + p] {
      assert v[i] == (marker + rest)[p..p + |v|][i];
    }
    assert OverlapsAt(v, marker, p);
  }

  function Keeps(v: string): seq<Chunk>
  {
    seq(|v|, j requires 0 <= j < |v| => Keep(v[j]))
  }

  /** `v` stands in `chunks` in kept characters only, from chunk `i` on. */
  predicate KeptAt(chunks: seq<Chunk>, v: string, i: nat)
  {
    i + |v| <= |chunks| && chunks[i..i + |v|] == Keeps(v)
  }

  lemma KeptCons(chunks: seq<Chunk>, v: string)
    requires v != "" && chunks != [] && chunks[0] == Keep(v[0]) && KeptAt(chunks[1..], v[1..], 0)
    ensures KeptAt(chunks, v, 0)
  {
    assert Keeps(v) == [Keep(v[0])] + Keeps(v[1..]);
    assert chunks[0..|v|] == [chunks[0]] + chunks[1..][0..|v[1..]|];
  }

  lemma {:induction false} KeptPrefix(chunks: seq<Chunk>, marker: string, v: string, k: nat)
    requires marker != "" && !Overlaps(v, marker)
    requires k <= |v| && v[k..] <= Spliced(chunks, marker)
    ensures KeptAt(chunks, v[k..], 0)
  {
    if k < |v| {
      var rest := Spliced(chunks[1..], marker);
      assert v[k..][0] == v[k];
      if chunks[0].Cut? {
        PrefixOverlaps(v, marker, rest, k);
      } else {
        assert Spliced(chunks, marker) == [chunks[0].c] + rest;
        assert v[k..][1..] == v[k + 1..];
        assert ([chunks[0].c] + rest)[1..] == rest;
        assert v[k + 1..] == rest[..|v| - k - 1];
        KeptPrefix(chunks[1..], marker, v, k + 1);
        KeptCons(chunks, v[k..]);
      }
    }
  }

  /** What cannot overlap the marker is found in the result only where it was kept. */
  lemma {:induction false} FoundWhereKept(chunks: seq<Chunk>, marker: string, v: string, p: nat)
    requires v != "" && marker != "" && !Overlaps(v, marker)
    requires OccursAt(v, Spliced(chunks, marker), p)
    ensures exists i: nat :: KeptAt(chunks, v, i)
  {
    var rest := Spliced(chunks[1..], marker);
    var first := if chunks[0].Keep? then [chunks[0].c] else marker;
    assert Spliced(chunks, marker) == first + rest;
    if p >= |first| {
      assert rest[p - |first|..p - |first| + |v|] == (first + rest)[p..p + |v|];
      FoundWhereKept(chunks[1..], marker, v, p - |first|);
      var i: nat :| KeptAt(chunks[1..], v, i);
      assert chunks[i + 1..i + 1 + |v|] == chunks[1..][i..i + |v|];
      assert KeptAt(chunks, v, i + 1);
    } else if chunks[0].Cut? {
      OccurrenceOverlaps(v, marker, rest, p);
    } else {
      assert v[0..] == v;
      KeptPrefix(chunks, marker, v, 0);
      assert KeptAt(chunks, v, 0);
    }
  }

  lemma {:induction false} KeptIsPrefixOfSource(chunks: seq<Chunk>, v: string)
    requires KeptAt(chunks, v, 0)
    ensures v <= Source(chunks)
  {
    if v != "" {
      assert chunks[0..|v|][0] == Keep(v[0]);
      assert chunks[1..][0..|v[1..]|] == chunks[0..|v|][1..] == Keeps(v)[1..] == Keeps(v[1..]);
      KeptIsPrefixOfSource(chunks[1..], v[1..]);
      assert v == [v[0]] + v[1..];
    }
  }

  lemma {:induction false} KeptOccursInSource(chunks: seq<Chunk>, v: string, i: nat)
    requires KeptAt(chunks, v, i)
    ensures Occurs(v, Source(chunks))
  {
    if i == 0 {
      KeptIsPrefixOfSource(chunks, v);
      assert OccursAt(v, Source(chunks), 0);
    } else {
      assert chunks[1..][i - 1..i - 1 + |v|] == chunks[i..i + |v|];
      KeptOccursInSource(chunks[1..], v, i - 1);
      var p: nat :| OccursAt(v, Source(chunks[1..]), p);
      var first := if chunks[0].Keep? then [chunks[0].c] else chunks[0].text;
      assert Source(chunks) == first + Source(chunks[1..]);
      assert (first + Source(chunks[1..]))[|first| + p..|first| + p + |v|] == v;
      assert OccursAt(v, Source(chunks), |first| + p);
    }
  }

  /** Splicing never brings about what was not there and cannot overlap the marker. */
  lemma NothingIsCreated(chunks: seq<Chunk>, marker: string, v: string)
    requires v != "" && marker != "" && !Overlaps(v, marker)
    requires !Occurs(v, Source(chunks))
    ensures !Occurs(v, Spliced(chunks, marker))
  {
    if Occurs(v, Spliced(chunks, marker)) {
      var p: nat :| OccursAt(v, Spliced(chunks, marker), p);
      FoundWhereKept(chunks, marker, v, p);
      var i: nat :| KeptAt(chunks, v, i);
      KeptOccursInSource(chunks, v, i);
    }
  }
}
