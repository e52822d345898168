/** The regular expression for IP addresses, as a backtracking matcher runs it, and what it matches. */
module DottedQuads {

  predicate IsDigit(c: char)
  {
    '0' <= c <= '9'
  }

  function Value(w: string): int
  {
    if w == "" then 0 else Value(w[..|w| - 1]) * 10 + (w[|w| - 1] as int - '0' as int)
  }

  /** One to three digits with a value of at most 255. */
  predicate IsOctet(w: string)
  {
    1 <= |w| <= 3 && (forall i :: 0 <= i < |w| ==> IsDigit(w[i])) && Value(w) <= 255
  }

  /** `n` times a dot and an octet. */
  ghost predicate IsTail(w: string, n: nat)
  {
    if n == 0 then w == "" else exists l: nat :: IsTailFrom(w, n, l)
  }

  ghost predicate IsTailFrom(w: string, n: nat, l: nat)
    requires n > 0
  {
    1 + l <= |w| && w[0] == '.' && IsOctet(w[1..1 + l]) && IsTail(w[1 + l..], n - 1)
  }

  /** Four octets with dots between them. */
  ghost predicate IsQuad(w: string)
  {
    exists l: nat :: IsQuadFrom(w, l)
  }

  ghost predicate IsQuadFrom(w: string, l: nat)
  {
    l <= |w| && IsOctet(w[..l]) && IsTail(w[l..], 3)
  }

  predicate DigitAt(s: string, i: nat)
  {
    i < |s| && IsDigit(s[i])
  }

  predicate InRange(s: string, i: nat, low: char, high: char)
  {
    i < |s| && low <= s[i] <= high
  }

  /** The lengths that `25[0-5]|2[0-4][0-9]|[01]?[0-9][0-9]?` can match at the start of `s`, in
      the order in which a backtracking matcher tries them. */
  function OctetLengths(s: string): seq<nat>
  {
    (if InRange(s, 0, '2', '2') && InRange(s, 1, '5', '5') && InRange(s, 2, '0', '5') then [3] else [])
    + (if InRange(s, 0, '2', '2') && InRange(s, 1, '0', '4') && DigitAt(s, 2) then [3] else [])
    + (if InRange(s, 0, '0', '1') && DigitAt(s, 1) then (if DigitAt(s, 2) then [3] else []) + [2] else [])
    + (if DigitAt(s, 0) then (if DigitAt(s, 1) then [2] else []) + [1] else [])
  }

  /** The lengths that `n` times `\.` and an octet can match, in that order. */
  function TailLengths(s: string, n: nat): seq<nat>
    decreases n, 0, 0
  {
    if n == 0 then
      [0]
    else if s == "" || s[0] != '.' then
      []
    else
      Branches(OctetLengths(s[1..]), 1, s, n - 1)
  }

  /** For each octet length, after `skip` characters, all the ways to go on. */
  function Branches(lengths: seq<nat>, skip: nat, s: string, n: nat): seq<nat>
    decreases n, 2, |lengths|
  {
    if lengths == [] then
      []
    else
      Branch(lengths[0], skip, s, n) + Branches(lengths[1..], skip, s, n)
  }

  function Branch(l: nat, skip: nat, s: string, n: nat): seq<nat>
    decreases n, 1, 0
  {
    if skip + l <= |s| then Shift(skip + l, TailLengths(s[skip + l..], n)) else []
  }

  function Shift(l: nat, lengths: seq<nat>): (r: seq<nat>)
    ensures |r| == |lengths| && forall i :: 0 <= i < |r| ==> r[i] == l + lengths[i]
  {
    seq(|lengths|, i requires 0 <= i < |lengths| => l + lengths[i])
  }

  function QuadLengths(s: string): seq<nat>
  {
    Branches(OctetLengths(s), 0, s, 3)
  }

  lemma ValueOf(w: string)
    requires 1 <= |w| <= 3
    ensures |w| == 1 ==> Value(w) == w[0] as int - '0' as int
    ensures |w| == 2 ==> Value(w) == (w[0] as int - '0' as int) * 10 + (w[1] as int - '0' as int)
    ensures |w| == 3 ==>
              Value(w) == (w[0] as int - '0' as int) * 100 + (w[1] as int - '0' as int) * 10
                          + (w[2] as int - '0' as int)
  {
    assert Value(w) == Value(w[..|w| - 1]) * 10 + (w[|w| - 1] as int - '0' as int);
    if |w| > 1 {
      assert w[..|w| - 1][|w| - 2] == w[|w| - 2] && w[..|w| - 1][..|w| - 2] == w[..|w| - 2];
    }
  }

  /** The pattern for an octet matches exactly the numbers from 0 to 255. */
  lemma OctetPatternIsByte(s: string, n: nat)
    ensures n in OctetLengths(s) <==> n <= |s| && IsOctet(s[..n])
  {
    if 1 <= n <= 3 && n <= |s| {
      ValueOf(s[..n]);
    }
  }

  /** Length `t` goes on after an octet of length `l`. */
  predicate IsBranch(l: nat, skip: nat, s: string, n: nat, t: nat)
  {
    skip + l <= |s| && t >= skip + l && t - skip - l in TailLengths(s[skip + l..], n)
  }

  lemma {:induction false} BranchesMembers(lengths: seq<nat>, skip: nat, s: string, n: nat, t: nat)
    ensures t in Branches(lengths, skip, s, n) <==> exists l: nat :: l in lengths && IsBranch(l, skip, s, n, t)
  {
    if lengths != [] {
      BranchesMembers(lengths[1..], skip, s, n, t);
      BranchMembers(lengths[0], skip, s, n, t);
      assert forall l :: l in lengths <==> l == lengths[0] || l in lengths[1..];
    }
  }

  lemma BranchMembers(l: nat, skip: nat, s: string, n: nat, t: nat)
    ensures t in Branch(l, skip, s, n) <==> IsBranch(l, skip, s, n, t)
  {
    if skip + l <= |s| {
      ShiftMembers(skip + l, TailLengths(s[skip + l..], n), t);
    }
  }

  lemma ShiftMembers(l: nat, lengths: seq<nat>, t: nat)
    ensures t in Shift(l, lengths) <==> t >= l && t - l in lengths
  {
    if t >= l && t - l in lengths {
      var i :| 0 <= i < |lengths| && lengths[i] == t - l;
      assert Shift(l, lengths)[i] == t;
    }
  }

  lemma {:induction false} TailPatternIsTail(s: string, n: nat, t: nat)
    ensures t in TailLengths(s, n) <==> t <= |s| && IsTail(s[..t], n)
    decreases n, 1
  {
    if n > 0 && s != "" && s[0] == '.' {
      BranchesMembers(OctetLengths(s[1..]), 1, s, n - 1, t);
      forall l: nat
        ensures l in OctetLengths(s[1..]) && IsBranch(l, 1, s, n - 1, t) <==> t <= |s| && IsTailFrom(s[..t], n, l)
      {
        OctetPatternIsByte(s[1..], l);
        TailBranch(s, n, t, l, OctetLengths(s[1..]));
      }
    }
  }

  lemma {:induction false} TailBranch(s: string, n: nat, t: nat, l: nat, octets: seq<nat>)
    requires n > 0 && s != "" && s[0] == '.'
    requires l in octets <==> l <= |s[1..]| && IsOctet(s[1..][..l])
    ensures l in octets && IsBranch(l, 1, s, n - 1, t) <==> t <= |s| && IsTailFrom(s[..t], n, l)
    decreases n, 0
  {
    if 1 + l <= |s| && 1 + l <= t {
      TailPatternIsTail(s[1 + l..], n - 1, t - 1 - l);
      if t <= |s| {
        assert s[1..][..l] == s[..t][1..1 + l];
        assert s[1 + l..][..t - 1 - l] == s[..t][1 + l..];
      }
    }
  }

  /** The whole pattern matches exactly the dotted quads of bytes. */
  lemma QuadPatternIsQuad(s: string, t: nat)
    ensures t in QuadLengths(s) <==> t <= |s| && IsQuad(s[..t])
  {
    BranchesMembers(OctetLengths(s), 0, s, 3, t);
    forall l: nat ensures l in OctetLengths(s) && IsBranch(l, 0, s, 3, t) <==> t <= |s| && IsQuadFrom(s[..t], l) {
      OctetPatternIsByte(s, l);
      QuadBranch(s, t, l, OctetLengths(s));
    }
  }

  lemma QuadBranch(s: string, t: nat, l: nat, octets: seq<nat>)
    requires l in octets <==> l <= |s| && IsOctet(s[..l])
    ensures l in octets && IsBranch(l, 0, s, 3, t) <==> t <= |s| && IsQuadFrom(s[..t], l)
  {
    if l <= |s| && l <= t {
      TailPatternIsTail(s[l..], 3, t - l);
      if t <= |s| {
        assert s[..l] == s[..t][..l];
        assert s[l..][..t - l] == s[..t][l..];
      }
    }
  }
}
