/** How far the redaction goes: exactly which values it removes from every text. */
module RedactionLimits {
  import opened Splicing
  import opened DottedQuads
  import opened Redaction

  /** No digit stands directly before a dot, so that no part of the text belongs to an address. */
  predicate Plain(s: string)
  {
    forall i :: 0 <= i < |s| - 1 ==> !(IsDigit(s[i]) && s[i + 1] == '.')
  }

  lemma QuadHasDigitDot(s: string, n: nat)
    requires n <= |s| && IsQuad(s[..n])
    ensures exists i :: 0 <= i < 3 && i < |s| - 1 && IsDigit(s[i]) && s[i + 1] == '.'
  {
    var w := s[..n];
    var l: nat :| IsQuadFrom(w, l);
    assert IsTail(w[l..], 3);
    var k: nat :| IsTailFrom(w[l..], 3, k);
    assert s[l - 1] == w[..l][l - 1] && s[l - 1 + 1] == w[l..][0];
  }

  /** Where there is no digit before a dot among the first four characters, no address begins. */
  lemma NoQuadStarts(s: string)
    requires forall i :: 0 <= i < 3 && i < |s| - 1 ==> !(IsDigit(s[i]) && s[i + 1] == '.')
    ensures DottedQuad()(s) == 0
  {
    DottedQuadIsRecognized();
    if DottedQuad()(s) > 0 {
      QuadHasDigitDot(s, DottedQuad()(s));
      assert false;
    }
  }

  lemma RedactIPsIsIdle(s: string)
    requires Plain(s)
    ensures RedactIPs(s) == s
  {
    forall p | 0 <= p < |s| ensures DottedQuad()(s[p..]) == 0 {
      var t := s[p..];
      forall i | 0 <= i < |t| - 1 ensures !(IsDigit(t[i]) && t[i + 1] == '.') {
        assert t[i] == s[p + i] && t[i + 1] == s[p + i + 1];
      }
      NoQuadStarts(t);
    }
    SplicedAfter(DottedQuad(), s, |s|, IP_MARKER);
    assert s[..|s|] + "" == s;
  }

  // ----- A text with one address in it

  const QUAD := "255.255.255.255"

  lemma OctetFirst(s: string)
    requires |s| >= 3 && s[0] == '2' && s[1] == '5' && s[2] == '5'
    ensures OctetLengths(s) != [] && OctetLengths(s)[0] == 3
  {
  }

  /** If the first way to match an octet leads on, the matcher goes no further. */
  lemma FirstBranch(lengths: seq<nat>, skip: nat, s: string, n: nat)
    requires lengths != [] && skip + lengths[0] <= |s| && TailLengths(s[skip + lengths[0]..], n) != []
    ensures Branches(lengths, skip, s, n) != []
    ensures Branches(lengths, skip, s, n)[0] == skip + lengths[0] + TailLengths(s[skip + lengths[0]..], n)[0]
  {
    assert Branch(lengths[0], skip, s, n) == Shift(skip + lengths[0], TailLengths(s[skip + lengths[0]..], n));
  }

  /** At place `i` the text goes on with `.255`. */
  predicate GroupAt(s: string, i: nat)
  {
    i + 4 <= |s| && s[i] == '.' && s[i + 1] == '2' && s[i + 2] == '5' && s[i + 3] == '5'
  }

  lemma TailFirst(s: string, n: nat)
    requires GroupAt(s, 0) && TailLengths(s[4..], n) != []
    ensures TailLengths(s, n + 1) != [] && TailLengths(s, n + 1)[0] == 4 + TailLengths(s[4..], n)[0]
  {
    OctetFirst(s[1..]);
    FirstBranch(OctetLengths(s[1..]), 1, s, n);
  }

  lemma LastOctet(s: string)
    requires GroupAt(s, 0)
    ensures TailLengths(s, 1) != [] && TailLengths(s, 1)[0] == 4
  {
    TailFirst(s, 0);
  }

  lemma LastTwoOctets(s: string)
    requires GroupAt(s, 0) && GroupAt(s, 4)
    ensures TailLengths(s, 2) != [] && TailLengths(s, 2)[0] == 8
  {
    LastOctet(s[4..]);
    TailFirst(s, 1);
  }

  lemma LastThreeOctets(s: string)
    requires GroupAt(s, 0) && GroupAt(s, 4) && GroupAt(s, 8)
    ensures TailLengths(s, 3) != [] && TailLengths(s, 3)[0] == 12
  {
    var t := s[4..];
    assert GroupAt(t, 0) && GroupAt(t, 4);
    LastTwoOctets(t);
    TailFirst(s, 2);
  }

  lemma QuadGroups(y: string)
    ensures var s := QUAD + y;
            s[0] == '2' && s[1] == '5' && s[2] == '5' && GroupAt(s, 3) && GroupAt(s, 7) && GroupAt(s, 11)
  {
    assert forall i :: 0 <= i < |QUAD| ==> (QUAD + y)[i] == QUAD[i];
  }

  lemma GroupsMove(s: string)
    requires GroupAt(s, 3) && GroupAt(s, 7) && GroupAt(s, 11)
    ensures GroupAt(s[3..], 0) && GroupAt(s[3..], 4) && GroupAt(s[3..], 8)
  {
  }

  /** Whatever follows the address, the matcher takes the whole address and nothing else. */
  lemma QuadAtStart(y: string)
    ensures DottedQuad()(QUAD + y) == |QUAD|
  {
    var s := QUAD + y;
    QuadGroups(y);
    GroupsMove(s);
    LastThreeOctets(s[3..]);
    OctetFirst(s);
    FirstBranch(OctetLengths(s), 0, s, 3);
  }

  lemma OneAddressIsRedacted(x: string, y: string)
    requires Plain(x) && Plain(y)
    ensures RedactIPs(x + (QUAD + y)) == x + (IP_MARKER + y)
  {
    var s := x + (QUAD + y);
    forall p | 0 <= p < |x| ensures DottedQuad()(s[p..]) == 0 {
      BeforeTheAddress(x, y, p);
    }
    SplicedAfter(DottedQuad(), s, |x|, IP_MARKER);
    assert s[..|x|] == x && s[|x|..] == QUAD + y;
    QuadAtStart(y);
    CutsAtMatch(DottedQuad(), QUAD + y, IP_MARKER);
    assert (QUAD + y)[|QUAD|..] == y;
    RedactIPsIsIdle(y);
  }

  lemma BeforeTheAddress(x: string, y: string, p: nat)
    requires Plain(x) && p < |x|
    ensures DottedQuad()((x + (QUAD + y))[p..]) == 0
  {
    var s := x + (QUAD + y);
    var t := s[p..];
    forall i | 0 <= i < 3 && i < |t| - 1 ensures !(IsDigit(t[i]) && t[i + 1] == '.') {
      assert t[i] == s[p + i] && t[i + 1] == s[p + i + 1];
      if p + i + 1 >= |x| {
        assert t[i + 1] == QUAD[p + i + 1 - |x|];
      }
    }
    NoQuadStarts(t);
  }

  // ----- Texts that a replacement leaves alone

  lemma AbsentIsIdle(v: string, s: string, marker: string)
    requires v != "" && !Occurs(v, s)
    ensures ReplaceAll(s, v, marker) == s
  {
    forall p | 0 <= p < |s| ensures Literal(v)(s[p..]) == 0 {
      if v <= s[p..] {
        assert s[p..][..|v|] == s[p..p + |v|];
        assert OccursAt(v, s, p);
      }
    }
    SplicedAfter(Literal(v), s, |s|, marker);
    assert s[..|s|] + "" == s;
  }

  /** `w` has a character that does not stand in `text`. */
  predicate HasOther(w: string, text: string)
  {
    exists i :: 0 <= i < |w| && w[i] !in text
  }

  lemma OtherIsAbsent(w: string, s: string, text: string)
    requires HasOther(w, text) && forall c :: c in s ==> c in text
    ensures w != "" && !Occurs(w, s)
  {
    var i :| 0 <= i < |w| && w[i] !in text;
    forall p: nat ensures !OccursAt(w, s, p) {
      if p + |w| <= |s| {
        assert s[p..p + |w|][i] == s[p + i];
      }
    }
  }

  lemma {:induction false} IdleOrder(envs: map<string, string>, order: seq<string>, s: string)
    requires forall k :: k in order ==> k in envs
    requires forall k :: k in order && k != "CI" ==> envs[k] != "" && !Occurs(envs[k], s)
    ensures RedactEnvs(envs, order, s) == s
  {
    if order != [] {
      var front, k := order[..|order| - 1], order[|order| - 1];
      assert order == front + [k];
      IdleOrder(envs, front, s);
      if k != "CI" {
        AbsentIsIdle(envs[k], s, EnvMarker(k));
      }
    }
  }

  /** A Go map may be iterated in an order that takes a given key last. */
  lemma {:induction false} OrderEndingWith(keys: set<string>, last: string) returns (order: seq<string>)
    requires last in keys
    ensures IsOrder(order, keys) && order[|order| - 1] == last
    decreases |keys|
  {
    if keys == {last} {
      order := [last];
    } else {
      assert keys - {last} != {};
      var k :| k in keys - {last};
      var rest := OrderEndingWith(keys - {k}, last);
      order := [k] + rest;
      assert forall j :: j in order <==> j == k || j in rest;
    }
  }

  // ----- The texts that leak

  lemma PlainMarker(key: string)
    requires Plain(key)
    ensures Plain(EnvMarker(key))
  {
    var m := EnvMarker(key);
    forall i | 0 <= i < |m| - 1 ensures !(IsDigit(m[i]) && m[i + 1] == '.') {
      assert 5 <= i < 5 + |key| ==> m[i] == key[i - 5];
      assert 5 <= i + 1 < 5 + |key| ==> m[i + 1] == key[i + 1 - 5];
      assert i < 5 ==> m[i] == "-ENV:"[i];
      assert i >= 5 + |key| ==> m[i] == ":REDACTED-"[i - 5 - |key|];
      assert i + 1 == 5 + |key| ==> m[i + 1] == ':';
    }
  }

  lemma PlainAround(x: string, marker: string, y: string)
    requires Plain(x) && Plain(marker) && Plain(y) && marker != "" && marker[0] == marker[|marker| - 1] == '-'
    ensures Plain(x + (marker + y))
  {
    var s := x + (marker + y);
    forall i | 0 <= i < |s| - 1 ensures !(IsDigit(s[i]) && s[i + 1] == '.') {
      assert i == |x| - 1 ==> s[i + 1] == '-';
      assert i == |x| + |marker| - 1 ==> s[i] == '-';
      assert |x| <= i < |x| + |marker| - 1 ==> s[i] == marker[i - |x|] && s[i + 1] == marker[i + 1 - |x|];
      assert i >= |x| + |marker| ==> s[i] == y[i - |x| - |marker|] && s[i + 1] == y[i + 1 - |x| - |marker|];
    }
  }

  lemma AroundMarkerIsPlain(v: string, marker: string, d: int)
    requires OverlapsAt(v, marker, d) && Plain(v) && Plain(marker)
    requires marker != "" && marker[0] == marker[|marker| - 1] == '-'
    ensures RedactIPs(Before(v, d) + (marker + After(v, marker, d))) == Before(v, d) + (marker + After(v, marker, d))
  {
    PlainAround(Before(v, d), marker, After(v, marker, d));
    RedactIPsIsIdle(Before(v, d) + (marker + After(v, marker, d)));
  }

  /** A value that overlaps a marker is not a part of the text that has an address in its place. */
  lemma AddressHidesNothing(v: string, d: int)
    requires v != "" && OverlapsAt(v, IP_MARKER, d)
    ensures !Occurs(v, Before(v, d) + (QUAD + After(v, IP_MARKER, d)))
  {
    var x, y := Before(v, d), After(v, IP_MARKER, d);
    var s := x + (QUAD + y);
    var i := if d < 0 then -d else 0;
    MarkerCharacters(i + d);
    assert v[i] == IP_MARKER[i + d];
    forall p: nat ensures !OccursAt(v, s, p) {
      if p + |v| <= |s| && |x| <= p + i < |x| + |QUAD| {
        assert s[p + i] == QUAD[p + i - |x|];
        QuadCharacters(p + i - |x|);
        assert s[p..p + |v|][i] == s[p + i];
      }
    }
  }

  lemma QuadCharacters(j: nat)
    requires j < |QUAD|
    ensures IsDigit(QUAD[j]) || QUAD[j] == '.'
    ensures QUAD[j] in "25."
  {
  }

  // ----- Which values leak

  /** Every other variable can be told apart: its value has a character that is neither in the
      value of `key` nor in an address. If that value can overlap the other's marker, the two
      values have no character in common and any third one has yet another character. */
  ghost predicate Separable(envs: map<string, string>, key: string)
    requires key in envs
  {
    forall j :: j in envs && j != key && j != "CI" ==>
      && HasOther(envs[j], envs[key] + "25.")
      && (Overlaps(envs[key], EnvMarker(j)) ==>
            && Plain(j)
            && (forall i :: 0 <= i < |envs[j]| ==> envs[j][i] !in envs[key])
            && forall l :: l in envs && l !in {key, j, "CI"} ==> HasOther(envs[l], envs[key] + envs[j]))
  }

  lemma OtherIsAbsentHere(envs: map<string, string>, key: string, j: string, s: string)
    requires key in envs && Separable(envs, key) && j in envs && j !in {key, "CI"}
    requires forall c :: c in s ==> c in envs[key] + "25."
    ensures envs[j] != "" && !Occurs(envs[j], s)
  {
    OtherIsAbsent(envs[j], s, envs[key] + "25.");
  }

  /** By its own marker: the variable is taken last. */
  lemma OwnMarkerLeaks(envs: map<string, string>, key: string, d: int) returns (order: seq<string>, s: string)
    requires key in envs && key != "CI" && envs[key] != "" && Plain(key) && Plain(envs[key]) && Separable(envs, key)
    requires OverlapsAt(envs[key], EnvMarker(key), d)
    ensures IsOrder(order, envs.Keys) && Occurs(envs[key], Redact(envs, order, s))
  {
    var v, marker := envs[key], EnvMarker(key);
    var e;
    s, e := OverlapLeaks(v, marker, d);
    order := OrderEndingWith(envs.Keys, key);
    var front := order[..|order| - 1];
    assert order == front + [key];
    forall k | k in front && k != "CI" ensures envs[k] != "" && !Occurs(envs[k], s) {
      assert exists i :: 0 <= i < |front| && front[i] == k && order[i] == k;
      OtherIsAbsentHere(envs, key, k, s);
    }
    IdleOrder(envs, front, s);
    PlainMarker(key);
    AroundMarker(v, marker, e);
    AroundMarkerIsPlain(v, marker, e);
  }

  /** By the marker for addresses: no variable occurs in the text with the address. */
  lemma AddressMarkerLeaks(envs: map<string, string>, key: string, d: int) returns (order: seq<string>, s: string)
    requires key in envs && key != "CI" && envs[key] != "" && Plain(envs[key]) && Separable(envs, key)
    requires OverlapsAt(envs[key], IP_MARKER, d)
    ensures IsOrder(order, envs.Keys) && Occurs(envs[key], Redact(envs, order, s))
  {
    var v := envs[key];
    var x, y := Before(v, d), After(v, IP_MARKER, d);
    s := x + (QUAD + y);
    order := OrderEndingWith(envs.Keys, key);
    forall c | c in s ensures c in v + "25." {
      if c in QUAD {
        var j :| 0 <= j < |QUAD| && QUAD[j] == c;
        QuadCharacters(j);
      }
    }
    forall k | k in order && k != "CI" ensures envs[k] != "" && !Occurs(envs[k], s) {
      if k == key {
        AddressHidesNothing(v, d);
      } else {
        OtherIsAbsentHere(envs, key, k, s);
      }
    }
    IdleOrder(envs, order, s);
    OneAddressIsRedacted(x, y);
    AroundMarker(v, IP_MARKER, d);
  }

  lemma NoCommonPart(v: string, w: string, x: string, y: string)
    requires v != "" && w != "" && |x| < |v| && |y| < |v| && forall i :: 0 <= i < |w| ==> w[i] !in v
    ensures !Occurs(v, x + (w + y))
  {
    var s := x + (w + y);
    forall p: nat ensures !OccursAt(v, s, p) {
      if p + |v| <= |s| && p < |x| + |w| {
        var i := if p <= |x| then |x| - p else 0;
        assert s[p..p + |v|][i] == s[p + i] == w[p + i - |x|];
      }
    }
  }

  lemma NotBefore(w: string, x: string, rest: string, p: nat)
    requires w != "" && w[0] !in x && p < |x|
    ensures Literal(w)((x + rest)[p..]) == 0
  {
    assert (x + rest)[p..][0] == x[p];
  }

  lemma NotWithout(w: string, y: string)
    requires w != "" && w[0] !in y
    ensures !Occurs(w, y)
  {
    forall p: nat ensures !OccursAt(w, y, p) {
      if p + |w| <= |y| {
        assert y[p..p + |w|][0] == y[p];
      }
    }
  }

  lemma ReplacedInside(w: string, x: string, y: string, marker: string)
    requires w != "" && w[0] !in x && w[0] !in y
    ensures ReplaceAll(x + (w + y), w, marker) == x + (marker + y)
  {
    forall p | 0 <= p < |x| ensures Literal(w)((x + (w + y))[p..]) == 0 {
      NotBefore(w, x, w + y, p);
    }
    SplicedAfter(Literal(w), x + (w + y), |x|, marker);
    assert (x + (w + y))[..|x|] == x && (x + (w + y))[|x|..] == w + y;
    ReplaceAllAtStart(y, w, marker);
    NotWithout(w, y);
    AbsentIsIdle(w, y, marker);
  }

  /** By the marker of another variable, which is taken last. */
  lemma OtherMarkerLeaks(envs: map<string, string>, key: string, j: string, d: int)
    returns (order: seq<string>, s: string)
    requires key in envs && key != "CI" && envs[key] != "" && Plain(envs[key]) && Separable(envs, key)
    requires j in envs && j !in {key, "CI"} && OverlapsAt(envs[key], EnvMarker(j), d)
    ensures IsOrder(order, envs.Keys) && Occurs(envs[key], Redact(envs, order, s))
  {
    var v, w, marker := envs[key], envs[j], EnvMarker(j);
    var x, y := Before(v, d), After(v, marker, d);
    assert Overlaps(v, marker);
    OtherIsAbsentHere(envs, key, j, "");
    s := x + (w + y);
    order := OrderEndingWith(envs.Keys, j);
    var front := order[..|order| - 1];
    assert order == front + [j];
    forall k | k in front && k != "CI" ensures envs[k] != "" && !Occurs(envs[k], s) {
      assert exists i :: 0 <= i < |front| && front[i] == k && order[i] == k;
      if k == key {
        NoCommonPart(v, w, x, y);
      } else {
        OtherIsAbsent(envs[k], s, v + w);
      }
    }
    IdleOrder(envs, front, s);
    ReplacedInside(w, x, y, marker);
    PlainMarker(j);
    AroundMarker(v, marker, d);
    AroundMarkerIsPlain(v, marker, d);
  }

  /** A value is removed from every text, in whatever order the variables are taken, exactly if it
      is clear of all the markers. */
  lemma ValueIsRemovedIffClear(envs: map<string, string>, key: string)
    requires key in envs && key != "CI" && envs[key] != "" && Plain(key) && Plain(envs[key]) && Separable(envs, key)
    ensures (forall order, s :: IsOrder(order, envs.Keys) ==> !Occurs(envs[key], Redact(envs, order, s)))
        <==> ClearOfMarkers(envs, envs[key])
  {
    var v := envs[key];
    if ClearOfMarkers(envs, v) {
      forall order, s | IsOrder(order, envs.Keys) ensures !Occurs(v, Redact(envs, order, s)) {
        NoEnvValueSurvives(envs, order, s, key);
      }
    } else {
      var order, s := LeakingText(envs, key);
      assert Occurs(v, Redact(envs, order, s));
    }
  }

  lemma LeakingText(envs: map<string, string>, key: string) returns (order: seq<string>, s: string)
    requires key in envs && key != "CI" && envs[key] != "" && Plain(key) && Plain(envs[key]) && Separable(envs, key)
    requires !ClearOfMarkers(envs, envs[key])
    ensures IsOrder(order, envs.Keys) && Occurs(envs[key], Redact(envs, order, s))
  {
    var v := envs[key];
    if Overlaps(v, IP_MARKER) {
      var d :| OverlapsAt(v, IP_MARKER, d);
      order, s := AddressMarkerLeaks(envs, key, d);
    } else {
      var j :| j in envs && j != "CI" && Overlaps(v, EnvMarker(j));
      var d :| OverlapsAt(v, EnvMarker(j), d);
      if j == key {
        order, s := OwnMarkerLeaks(envs, key, d);
      } else {
        order, s := OtherMarkerLeaks(envs, key, j, d);
      }
    }
  }
}
