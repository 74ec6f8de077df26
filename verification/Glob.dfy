/**
  The endpoint globs of internal/greyproxy/endpoint_registry.go: the greedy
  matcher, what a glob means, and the proof that the two agree.
 */
module Glob {

  predicate Occurs(s: string, sub: string, k: int) {
    0 <= k <= |s| - |sub| && s[k..k + |sub|] == sub
  }

  /** An occurrence does not move relative to the text when a prefix is cut off. */
  lemma OccursShifted(s: string, sub: string, j: nat, k: nat)
    requires j <= |s|
    ensures Occurs(s[j..], sub, k) <==> Occurs(s, sub, j + k)
  {
    if k <= |s[j..]| - |sub| { assert s[j..][k..k + |sub|] == s[j + k..j + k + |sub|]; }
  }

  /** `strings.Index`: the first occurrence of `sub`, or -1. */
  function Find(s: string, sub: string): (r: int)
    ensures r == -1 || Occurs(s, sub, r)
    ensures forall k :: Occurs(s, sub, k) ==> 0 <= r <= k
    decreases |s|
  {
    if |s| < |sub| then -1
    else if s[..|sub|] == sub then 0
    else if |s| == 0 then -1
    else
      var r := Find(s[1..], sub);
      assert forall k :: Occurs(s, sub, k) ==> k > 0 && Occurs(s[1..], sub, k - 1) by {
        forall k | Occurs(s, sub, k) ensures k > 0 && Occurs(s[1..], sub, k - 1) {
          if k > 0 { OccursShifted(s, sub, 1, k - 1); }
        }
      }
      assert r >= 0 ==> Occurs(s, sub, r + 1) by {
        if r >= 0 { OccursShifted(s, sub, 1, r); }
      }
      if r < 0 then -1 else r + 1
  }

  predicate HasPrefix(s: string, p: string) { Occurs(s, p, 0) }

  predicate HasSuffix(s: string, p: string) { Occurs(s, p, |s| - |p|) }

  /** `strings.Split(pattern, "*")`. */
  function Split(p: string): (parts: seq<string>)
    ensures |parts| > 0
  {
    if p == "" then [""]
    else
      var rest := Split(p[1..]);
      if p[0] == '*' then [""] + rest else [[p[0]] + rest[0]] + rest[1..]
  }

  lemma {:induction false} SplitWithoutStar(p: string)
    ensures |Split(p)| == 1 <==> '*' !in p
    ensures '*' !in p ==> Split(p) == [p]
    decreases |p|
  {
    if p != "" {
      SplitWithoutStar(p[1..]);
      assert p == [p[0]] + p[1..];
    }
  }

  // ----- What a glob means -----

  /** Character by character: a star stands for any string, every other character for itself. */
  ghost predicate Means(p: string, s: string)
    decreases |p|
  {
    if p == "" then s == ""
    else if p[0] == '*' then exists k :: 0 <= k <= |s| && Means(p[1..], s[k..])
    else s != "" && s[0] == p[0] && Means(p[1..], s[1..])
  }

  /** The literal pieces in order with `gaps` between them. */
  function Weave(parts: seq<string>, gaps: seq<string>): string
    requires |parts| == |gaps| + 1
    decreases |parts|
  {
    if |gaps| == 0 then parts[0] else parts[0] + gaps[0] + Weave(parts[1..], gaps[1..])
  }

  // ----- The greedy matcher -----

  /** `s` is a gap, the first piece, a gap, the second piece, and so on, ending with the last piece. */
  ghost predicate Gapped(parts: seq<string>, s: string)
    requires |parts| > 0
    decreases |parts|
  {
    if |parts| == 1 then HasSuffix(s, parts[0])
    else exists k :: Occurs(s, parts[0], k) && Gapped(parts[1..], s[k + |parts[0]|..])
  }

  /** More text in front only widens the first gap. */
  lemma {:induction false} GappedMonotone(parts: seq<string>, s: string, j: nat)
    requires |parts| > 0 && j <= |s| && Gapped(parts, s[j..])
    ensures Gapped(parts, s)
  {
    var t := s[j..];
    if |parts| == 1 {
      OccursShifted(s, parts[0], j, |t| - |parts[0]|);
    } else {
      var k :| Occurs(t, parts[0], k) && Gapped(parts[1..], t[k + |parts[0]|..]);
      OccursShifted(s, parts[0], j, k);
      assert s[j + k + |parts[0]|..] == t[k + |parts[0]|..];
    }
  }

  /** Taking the first occurrence of a piece never loses a match. */
  lemma LeftmostSuffices(parts: seq<string>, s: string, idx: nat)
    requires |parts| > 1 && Occurs(s, parts[0], idx)
    requires forall k :: Occurs(s, parts[0], k) ==> idx <= k
    ensures Gapped(parts, s) <==> Gapped(parts[1..], s[idx + |parts[0]|..])
  {
    var n := |parts[0]|;
    if Gapped(parts, s) {
      var k :| Occurs(s, parts[0], k) && Gapped(parts[1..], s[k + n..]);
      assert s[idx + n..][k - idx..] == s[k + n..];
      GappedMonotone(parts[1..], s[idx + n..], k - idx);
    }
  }

  /** The first piece at the front, the others gapped behind it. */
  ghost predicate Pieces(parts: seq<string>, s: string)
    requires |parts| > 0
  {
    if |parts| == 1 then s == parts[0]
    else HasPrefix(s, parts[0]) && Gapped(parts[1..], s[|parts[0]|..])
  }

  /** Cutting `s` at `k` leaves the pieces exactly when the first one occurs there and the others follow. */
  lemma PiecesAt(parts: seq<string>, s: string, k: nat)
    requires |parts| > 0 && k <= |s|
    ensures |parts| == 1 ==> (Pieces(parts, s[k..]) <==> Occurs(s, parts[0], k) && k == |s| - |parts[0]|)
    ensures |parts| > 1 ==> (Pieces(parts, s[k..]) <==> Occurs(s, parts[0], k) && Gapped(parts[1..], s[k + |parts[0]|..]))
  {
    OccursShifted(s, parts[0], k, 0);
    if |parts| > 1 && Occurs(s, parts[0], k) {
      assert s[k..][|parts[0]|..] == s[k + |parts[0]|..];
    }
  }

  lemma GappedIsSomewhere(parts: seq<string>, s: string)
    requires |parts| > 0
    ensures Gapped(parts, s) <==> exists k :: 0 <= k <= |s| && Pieces(parts, s[k..])
  {
    if Gapped(parts, s) {
      if |parts| == 1 {
        PiecesAt(parts, s, |s| - |parts[0]|);
      } else {
        var k :| Occurs(s, parts[0], k) && Gapped(parts[1..], s[k + |parts[0]|..]);
        PiecesAt(parts, s, k);
      }
    }
    forall k | 0 <= k <= |s| && Pieces(parts, s[k..]) ensures Gapped(parts, s) {
      PiecesAt(parts, s, k);
    }
  }

  /** A literal character at the front of the pattern must be the first character of the text. */
  lemma PiecesOfLiteral(c: char, rest: seq<string>, s: string)
    requires |rest| > 0
    ensures Pieces([[c] + rest[0]] + rest[1..], s) <==> s != "" && s[0] == c && Pieces(rest, s[1..])
  {
    var first := [c] + rest[0];
    var parts := [first] + rest[1..];
    assert parts[1..] == rest[1..];
    if s != "" {
      assert s == [s[0]] + s[1..];
      if |first| <= |s| {
        assert s[..|first|] == [s[0]] + s[1..][..|rest[0]|];
        assert s[|first|..] == s[1..][|rest[0]|..];
      }
    }
  }

  lemma {:induction false} MeansIsPieces(p: string, s: string)
    ensures Means(p, s) <==> Pieces(Split(p), s)
    decreases |p|
  {
    if p != "" {
      var rest := Split(p[1..]);
      if p[0] == '*' {
        assert Split(p)[1..] == rest && s[0..] == s;
        forall k | 0 <= k <= |s| ensures Means(p[1..], s[k..]) <==> Pieces(rest, s[k..]) {
          MeansIsPieces(p[1..], s[k..]);
        }
        GappedIsSomewhere(rest, s);
      } else {
        PiecesOfLiteral(p[0], rest, s);
        if s != "" { MeansIsPieces(p[1..], s[1..]); }
      }
    }
  }

  /** `matchGlob`: strip the prefix, consume the first occurrence of each middle piece, check the suffix. */
  method MatchGlob(pattern: string, text: string) returns (matched: bool)
    ensures matched <==> Means(pattern, text)
  {
    MeansIsPieces(pattern, text);
    SplitWithoutStar(pattern);
    var s := text;
    if '*' !in pattern {
      return pattern == s;
    }
    var parts := Split(pattern);
    if !HasPrefix(s, parts[0]) {
      return false;
    }
    s := s[|parts[0]|..];
    var i := 1;
    while i < |parts| - 1
      invariant 1 <= i <= |parts| - 1
      invariant Means(pattern, text) <==> Gapped(parts[i..], s)
    {
      var idx := Find(s, parts[i]);
      if idx < 0 {
        return false;
      }
      assert parts[i..][0] == parts[i] && parts[i..][1..] == parts[i + 1..];
      LeftmostSuffices(parts[i..], s, idx);
      s := s[idx + |parts[i]|..];
      i := i + 1;
    }
    assert parts[i..] == [parts[|parts| - 1]];
    matched := HasSuffix(s, parts[|parts| - 1]);
  }

  // ----- The same meaning as a cut of the text -----

  lemma {:induction false} GappedHasGaps(parts: seq<string>, s: string) returns (gaps: seq<string>)
    requires |parts| > 0 && Gapped(parts, s)
    ensures |gaps| == |parts| && s == gaps[0] + Weave(parts, gaps[1..])
    decreases |parts|
  {
    var n := |parts[0]|;
    if |parts| == 1 {
      gaps := [s[..|s| - n]];
      assert s == s[..|s| - n] + parts[0];
    } else {
      var k :| Occurs(s, parts[0], k) && Gapped(parts[1..], s[k + n..]);
      var more := GappedHasGaps(parts[1..], s[k + n..]);
      gaps := [s[..k]] + more;
      assert gaps[1..] == more && s == s[..k] + (parts[0] + s[k + n..]);
      assert parts[0] + (more[0] + Weave(parts[1..], more[1..])) == Weave(parts, more);
    }
  }

  lemma {:induction false} GapsAreGapped(parts: seq<string>, gap: string, gaps: seq<string>)
    requires |parts| == |gaps| + 1
    ensures Gapped(parts, gap + Weave(parts, gaps))
    decreases |parts|
  {
    var s := gap + Weave(parts, gaps);
    var k, n := |gap|, |parts[0]|;
    assert Occurs(s, parts[0], k);
    if |gaps| > 0 {
      GapsAreGapped(parts[1..], gaps[0], gaps[1..]);
      assert s[k + n..] == gaps[0] + Weave(parts[1..], gaps[1..]);
    }
  }

  ghost predicate CutBy(parts: seq<string>, s: string, gaps: seq<string>) {
    |parts| == |gaps| + 1 && s == Weave(parts, gaps)
  }

  lemma PiecesAreCut(parts: seq<string>, s: string)
    requires |parts| > 0 && Pieces(parts, s)
    ensures exists gaps :: CutBy(parts, s, gaps)
  {
    var n := |parts[0]|;
    if |parts| == 1 {
      assert CutBy(parts, s, []);
    } else {
      var gaps := GappedHasGaps(parts[1..], s[n..]);
      assert s == parts[0] + s[n..];
      assert parts[0] + (gaps[0] + Weave(parts[1..], gaps[1..])) == Weave(parts, gaps);
      assert CutBy(parts, s, gaps);
    }
  }

  lemma CutArePieces(parts: seq<string>, s: string, gaps: seq<string>)
    requires CutBy(parts, s, gaps)
    ensures Pieces(parts, s)
  {
    if |gaps| > 0 {
      var n := |parts[0]|;
      GapsAreGapped(parts[1..], gaps[0], gaps[1..]);
      assert s[..n] == parts[0] && s[n..] == gaps[0] + Weave(parts[1..], gaps[1..]);
    }
  }

  /** A glob means exactly that the text can be cut into its literal pieces, in order, with any gaps at the stars. */
  lemma MeansIsCut(p: string, s: string)
    ensures Means(p, s) <==> exists gaps :: CutBy(Split(p), s, gaps)
  {
    MeansIsPieces(p, s);
    if Pieces(Split(p), s) { PiecesAreCut(Split(p), s); }
    forall gaps | CutBy(Split(p), s, gaps) ensures Pieces(Split(p), s) { CutArePieces(Split(p), s, gaps); }
  }
}
