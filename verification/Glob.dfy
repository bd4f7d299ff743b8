/**
 The small glob language of ignore lists: literals, and `*` for a run of characters other than
 `/`. Two matchers implement it, one greedy and one memoised.
 */
module Glob {

  predicate NoSlash(s: string) { forall i :: 0 <= i < |s| ==> s[i] != '/' }

  predicate NoStar(s: string) { forall i :: 0 <= i < |s| ==> s[i] != '*' }

  ghost predicate Covers(c: string, k: int) { 0 <= k <= |c| && NoSlash(c[..k]) }

  /** The language: every star stands for some run without a slash. */
  ghost predicate Matches(c: string, p: string)
    decreases |p|
  {
    if p == "" then c == ""
    else if p[0] == '*' then exists k :: Covers(c, k) && Matches(c[k..], p[1..])
    else c != "" && c[0] == p[0] && Matches(c[1..], p[1..])
  }

  lemma EmptyStep(c: string)
    ensures Matches(c, "") <==> c == ""
  {
  }

  lemma LiteralStep(c: string, p: string)
    requires p != "" && p[0] != '*'
    ensures Matches(c, p) <==> c != "" && c[0] == p[0] && Matches(c[1..], p[1..])
  {
  }

  lemma StarRun(c: string, p: string)
    requires p != "" && p[0] == '*'
    ensures Matches(c, p) <==> exists k :: Covers(c, k) && Matches(c[k..], p[1..])
  {
  }

  lemma StarStep(c: string, p: string)
    requires p != "" && p[0] == '*'
    ensures Matches(c, p) <==> Matches(c, p[1..]) || (c != "" && c[0] != '/' && Matches(c[1..], p))
  {
    hide Matches;
    StarRun(c, p);
    assert c[0..] == c && Covers(c, 0);
    if c != "" {
      StarRun(c[1..], p);
      if Matches(c, p) && !Matches(c, p[1..]) {
        var k :| Covers(c, k) && Matches(c[k..], p[1..]);
        assert c[0] == c[..k][0];
        assert c[1..][..k - 1] == c[..k][1..] && c[1..][k - 1..] == c[k..];
        assert Covers(c[1..], k - 1);
      }
      if c[0] != '/' && Matches(c[1..], p) {
        var k :| Covers(c[1..], k) && Matches(c[1..][k..], p[1..]);
        assert c[..k + 1] == [c[0]] + c[1..][..k] && c[k + 1..] == c[1..][k..];
        assert Covers(c, k + 1);
      }
    } else if Matches(c, p) {
      var k :| Covers(c, k) && Matches(c[k..], p[1..]);
      assert c[k..] == c;
    }
  }

  // A star can take over any slash-free run in front of what it already matches.
  lemma {:induction false} StarAbsorbs(c: string, p: string, k: nat)
    requires p != "" && p[0] == '*' && Covers(c, k) && Matches(c[k..], p)
    ensures Matches(c, p)
  {
    hide Matches;
    if k == 0 {
      assert c[0..] == c;
    } else {
      assert c[1..][..k - 1] == c[..k][1..] && c[1..][k - 1..] == c[k..] && c[0] == c[..k][0];
      StarAbsorbs(c[1..], p, k - 1);
      StarStep(c, p);
    }
  }

  lemma {:induction false} LiteralPrefix(c: string, x: string, r: string)
    requires NoStar(x)
    ensures Matches(c, x + r) <==> x <= c && Matches(c[|x|..], r)
    decreases |x|
  {
    hide Matches;
    if x == "" {
      assert x + r == r && c[0..] == c;
    } else {
      assert (x + r)[1..] == x[1..] + r;
      LiteralStep(c, x + r);
      if c != "" && c[0] == x[0] {
        LiteralPrefix(c[1..], x[1..], r);
        assert x <= c <==> x[1..] <= c[1..];
        assert |x| <= |c| ==> c[1..][|x[1..]|..] == c[|x|..];
      }
    }
  }

  lemma {:induction false} EmptyMatchesStars(p: string)
    ensures Matches("", p) <==> forall i :: 0 <= i < |p| ==> p[i] == '*'
  {
    hide Matches;
    if p == "" {
      EmptyStep("");
    } else {
      EmptyMatchesStars(p[1..]);
      if p[0] == '*' {
        StarStep("", p);
        assert forall i :: 1 <= i < |p| ==> p[i] == p[1..][i - 1];
      } else {
        LiteralStep("", p);
      }
    }
  }

  // The literal text between two stars starts at its earliest place without loss.
  lemma EarliestIsEnough(c: string, x: string, q: string)
    requires NoStar(x) && x <= c && q != "" && q[0] == '*'
    ensures Matches(c, "*" + x + q) <==> Matches(c[|x|..], q)
  {
    hide Matches;
    var p := "*" + x + q;
    assert p[1..] == x + q;
    StarRun(c, p);
    if Matches(c, p) {
      var k :| Covers(c, k) && Matches(c[k..], x + q);
      LaterIsAbsorbed(c, x, q, k);
    }
    if Matches(c[|x|..], q) {
      LiteralPrefix(c, x, q);
      assert Covers(c, 0) && c[0..] == c;
    }
  }

  lemma LaterIsAbsorbed(c: string, x: string, q: string, k: nat)
    requires NoStar(x) && x <= c && q != "" && q[0] == '*' && Covers(c, k) && Matches(c[k..], x + q)
    ensures Matches(c[|x|..], q)
  {
    hide Matches;
    LiteralPrefix(c[k..], x, q);
    var d := c[|x|..];
    assert c[k..][|x|..] == d[k..];
    if NoSlash(x) {
      forall i | 0 <= i < k ensures d[i] != '/' {
        if i + |x| < k { assert c[..k][i + |x|] == d[i]; } else { assert c[k..][i + |x| - k] == x[i + |x| - k]; }
      }
      assert Covers(d, k);
      StarAbsorbs(d, q, k);
    } else {
      SlashPins(c, x, k);
      assert d[0..] == d;
    }
  }

  // A literal holding a slash can stand at one place only.
  lemma SlashPins(c: string, x: string, k: nat)
    requires x <= c && k <= |c| && x <= c[k..] && NoSlash(c[..k]) && !NoSlash(x)
    ensures k == 0
  {
    var s := FirstSlash(x);
    assert c[s] == '/';
    assert forall i :: 0 <= i < k ==> c[i] == c[..k][i];
    assert c[k..][s - k] == x[s - k];
  }

  lemma {:induction false} FirstSlash(x: string) returns (s: nat)
    requires !NoSlash(x)
    ensures s < |x| && x[s] == '/' && NoSlash(x[..s])
    ensures forall i :: 0 <= i < s ==> x[i] != '/'
  {
    if x[0] == '/' {
      s := 0;
    } else {
      assert exists i :: 0 <= i < |x[1..]| && x[1..][i] == '/' by {
        var i :| 0 <= i < |x| && x[i] == '/';
        assert x[1..][i - 1] == '/';
      }
      var t := FirstSlash(x[1..]);
      s := t + 1;
      forall i | 0 <= i < s ensures x[i] != '/' { if i > 0 { assert x[1..][i - 1] == x[i]; } }
    }
  }

  // Where the greedy loop stands: the last star taken, the run it covers so far, and the literal
  // text matched after it.
  ghost predicate Tracks(c: string, p: string, ci: int, pi: int, star: int, starCandidate: int) {
    && 0 <= ci <= |c| && 0 <= pi <= |p|
    && if star == -1 then ci == pi && starCandidate == -1 && NoStar(p[..pi]) && c[..ci] == p[..pi]
       else && 0 <= star < pi && p[star] == '*' && 0 <= starCandidate <= ci
            && ci - starCandidate == pi - (star + 1) && NoStar(p[star + 1..pi]) && c[starCandidate..ci] == p[star + 1..pi]
  }

  // What remains to be decided at that point.
  ghost predicate Remaining(c: string, p: string, ci: int, pi: int, star: int, starCandidate: int)
    requires Tracks(c, p, ci, pi, star, starCandidate)
  {
    if star == -1 then Matches(c[ci..], p[pi..]) else Matches(c[starCandidate..], p[star..])
  }

  lemma TakeLiteral(c: string, p: string, ci: int, pi: int, star: int, sc: int)
    requires Tracks(c, p, ci, pi, star, sc) && ci < |c| && pi < |p| && p[pi] != '*' && p[pi] == c[ci]
    ensures Tracks(c, p, ci + 1, pi + 1, star, sc)
    ensures Remaining(c, p, ci + 1, pi + 1, star, sc) == Remaining(c, p, ci, pi, star, sc)
  {
    hide Matches;
    if star == -1 {
      LiteralStep(c[ci..], p[pi..]);
      assert c[ci..][1..] == c[ci + 1..] && p[pi..][1..] == p[pi + 1..];
      assert p[..pi + 1] == p[..pi] + [p[pi]] && c[..ci + 1] == c[..ci] + [c[ci]];
    } else {
      assert p[star + 1..pi + 1] == p[star + 1..pi] + [p[pi]] && c[sc..ci + 1] == c[sc..ci] + [c[ci]];
    }
  }

  // The pattern from the last star on is that star, the literal matched, and the rest.
  lemma SplitAtStar(c: string, p: string, ci: int, pi: int, star: int, sc: int)
    requires Tracks(c, p, ci, pi, star, sc) && star >= 0
    ensures p[star..] == "*" + p[star + 1..pi] + p[pi..]
    ensures p[star..][1..] == p[star + 1..pi] + p[pi..]
    ensures p[star + 1..pi] <= c[sc..] && c[sc..][pi - star - 1..] == c[ci..]
  {
    hide Matches;
    var x := p[star + 1..pi];
    forall i | 0 <= i < |x| ensures x[i] == c[sc..][i] { assert c[sc..ci][i] == c[sc..][i]; }
  }

  lemma TakeStar(c: string, p: string, ci: int, pi: int, star: int, sc: int)
    requires Tracks(c, p, ci, pi, star, sc) && pi < |p| && p[pi] == '*'
    ensures Tracks(c, p, ci, pi + 1, pi, ci)
    ensures Remaining(c, p, ci, pi + 1, pi, ci) == Remaining(c, p, ci, pi, star, sc)
  {
    hide Matches;
    if star == -1 {
      assert p[pi + 1..pi + 1] == "" && c[ci..ci] == "";
    } else {
      SplitAtStar(c, p, ci, pi, star, sc);
      EarliestIsEnough(c[sc..], p[star + 1..pi], p[pi..]);
    }
  }

  lemma Mismatch(c: string, p: string, ci: int, pi: int, star: int, sc: int)
    requires Tracks(c, p, ci, pi, star, sc) && ci < |c|
    requires pi < |p| ==> p[pi] != '*' && p[pi] != c[ci]
    ensures star == -1 || c[sc] == '/' ==> !Remaining(c, p, ci, pi, star, sc)
    ensures star >= 0 && c[sc] != '/' ==>
              Tracks(c, p, sc + 1, star + 1, star, sc + 1)
              && Remaining(c, p, sc + 1, star + 1, star, sc + 1) == Remaining(c, p, ci, pi, star, sc)
  {
    hide Matches;
    if pi == |p| {
      EmptyStep(c[ci..]);
      assert p[pi..] == "";
    } else {
      LiteralStep(c[ci..], p[pi..]);
    }
    if star >= 0 {
      SplitAtStar(c, p, ci, pi, star, sc);
      LiteralPrefix(c[sc..], p[star + 1..pi], p[pi..]);
      assert c[sc..][|p[star + 1..pi]|..] == c[ci..];
      StarStep(c[sc..], p[star..]);
      assert c[sc..][1..] == c[sc + 1..] && p[star + 1..star + 1] == "" && c[sc + 1..sc + 1] == "";
    }
  }

  lemma Exhausted(c: string, p: string, pi: int, star: int, sc: int)
    requires Tracks(c, p, |c|, pi, star, sc)
    ensures Remaining(c, p, |c|, pi, star, sc) <==> forall i :: pi <= i < |p| ==> p[i] == '*'
  {
    hide Matches;
    StarsFrom(p, pi);
    assert c[|c|..] == "";
    if star >= 0 {
      var x := p[star + 1..pi];
      SplitAtStar(c, p, |c|, pi, star, sc);
      assert c[sc..] == x;
      ExactlyTheLiteral(x, p[pi..]);
    }
  }

  // With no text beyond the literal behind a star, the star covers nothing.
  lemma ExactlyTheLiteral(x: string, r: string)
    requires NoStar(x)
    ensures Matches(x, "*" + x + r) <==> Matches("", r)
  {
    hide Matches;
    var p := "*" + x + r;
    assert p[1..] == x + r && x[|x|..] == "";
    LiteralPrefix(x, x, r);
    StarStep(x, p);
    if x != "" { TooShort(x[1..], x, r); }
  }

  lemma StarsFrom(p: string, pi: nat)
    requires pi <= |p|
    ensures Matches("", p[pi..]) <==> forall i :: pi <= i < |p| ==> p[i] == '*'
  {
    hide Matches;
    EmptyMatchesStars(p[pi..]);
    assert forall i :: pi <= i < |p| ==> p[i] == p[pi..][i - pi];
  }

  // Less text than the literal behind a star needs.
  lemma {:induction false} TooShort(c: string, x: string, r: string)
    requires |c| < |x| && NoStar(x)
    ensures !Matches(c, "*" + x + r)
  {
    hide Matches;
    assert ("*" + x + r)[1..] == x + r;
    LiteralPrefix(c, x, r);
    StarStep(c, "*" + x + r);
    if c != "" { TooShort(c[1..], x, r); }
  }

  /** The greedy matcher: on a mismatch only the last star is extended, and never over a slash. */
  method GlobMatchExact(candidate: string, pattern: string) returns (matched: bool)
    ensures matched == Matches(candidate, pattern)
  {
    hide Matches;
    var ci, pi, star, starCandidate := 0, 0, -1, -1;
    assert candidate[0..] == candidate && pattern[0..] == pattern;
    while ci < |candidate|
      invariant Tracks(candidate, pattern, ci, pi, star, starCandidate)
      invariant Remaining(candidate, pattern, ci, pi, star, starCandidate) == Matches(candidate, pattern)
      decreases |pattern| - star, |candidate| - starCandidate, |candidate| - ci
    {
      if pi < |pattern| && pattern[pi] != '*' && pattern[pi] == candidate[ci] {
        TakeLiteral(candidate, pattern, ci, pi, star, starCandidate);
        ci, pi := ci + 1, pi + 1;
      } else if pi < |pattern| && pattern[pi] == '*' {
        TakeStar(candidate, pattern, ci, pi, star, starCandidate);
        star, starCandidate, pi := pi, ci, pi + 1;
      } else {
        Mismatch(candidate, pattern, ci, pi, star, starCandidate);
        if star >= 0 && starCandidate < |candidate| && candidate[starCandidate] != '/' {
          starCandidate := starCandidate + 1;
          ci, pi := starCandidate, star + 1;
        } else {
          return false;
        }
      }
    }
    Exhausted(candidate, pattern, pi, star, starCandidate);
    ghost var stop := pi;
    while pi < |pattern| && pattern[pi] == '*'
      invariant stop <= pi <= |pattern|
      invariant forall i :: stop <= i < pi ==> pattern[i] == '*'
    {
      pi := pi + 1;
    }
    return pi == |pattern|;
  }

  /** The memoised matcher of the secret scanner: one table entry per pair of positions. */
  class MemoMatcher {
    const candidate: string
    const pattern: string
    var memo: map<(nat, nat), bool>
    var seen: set<(nat, nat)>

    constructor (candidate: string, pattern: string)
      ensures this.candidate == candidate && this.pattern == pattern && memo == map[] && seen == {}
    {
      this.candidate, this.pattern := candidate, pattern;
      memo, seen := map[], {};
    }

    // Table entries at or beyond a diagonal hold the answer; entries before it may be in progress.
    ghost predicate Settled(diagonal: nat)
      reads this
    {
      forall k :: k in seen && k.0 + k.1 >= diagonal ==>
        k.0 <= |candidate| && k.1 <= |pattern| && k in memo && memo[k] == Matches(candidate[k.0..], pattern[k.1..])
    }

    method Match(ci: nat, pi: nat) returns (result: bool)
      requires ci <= |candidate| && pi <= |pattern| && Settled(ci + pi)
      modifies this
      ensures result == Matches(candidate[ci..], pattern[pi..])
      ensures Settled(ci + pi)
      ensures old(seen) <= seen && forall k :: k in seen && k !in old(seen) ==> k.0 + k.1 >= ci + pi
      ensures forall k :: k in seen && k.0 + k.1 < ci + pi ==> (k in memo <==> k in old(memo)) && (k in memo ==> memo[k] == old(memo)[k])
      decreases |candidate| - ci + |pattern| - pi
    {
      hide Matches;
      if (ci, pi) in seen {
        return memo[(ci, pi)];
      }
      seen := seen + {(ci, pi)};
      if pi == |pattern| {
        EmptyStep(candidate[ci..]);
        assert pattern[pi..] == "";
        result := ci == |candidate|;
      } else if pattern[pi] == '*' {
        StarStep(candidate[ci..], pattern[pi..]);
        assert pattern[pi..][1..] == pattern[pi + 1..];
        result := Match(ci, pi + 1);
        if !result && ci < |candidate| && candidate[ci] != '/' {
          assert candidate[ci..][1..] == candidate[ci + 1..];
          result := Match(ci + 1, pi);
        }
      } else {
        LiteralStep(candidate[ci..], pattern[pi..]);
        if ci < |candidate| && pattern[pi] == candidate[ci] {
          assert candidate[ci..][1..] == candidate[ci + 1..] && pattern[pi..][1..] == pattern[pi + 1..];
          result := Match(ci + 1, pi + 1);
        } else {
          result := false;
        }
      }
      memo := memo[(ci, pi) := result];
    }
  }

  method MemoMatchExact(candidate: string, pattern: string) returns (matched: bool)
    ensures matched == Matches(candidate, pattern)
  {
    hide Matches;
    var m := new MemoMatcher(candidate, pattern);
    matched := m.Match(0, 0);
    assert candidate[0..] == candidate && pattern[0..] == pattern;
  }

  // ----- Paths -----

  function DropDotSlash(s: string): string { if "./" <= s then DropDotSlash(s[2..]) else s }

  function DropSlash(s: string): string { if "/" <= s then DropSlash(s[1..]) else s }

  function Normalize(s: string): string { DropSlash(DropDotSlash(s)) }

  /** A pattern ending in a slash accepts the path it names and everything below it. */
  ghost predicate Accepts(candidate: string, pattern: string) {
    var path, pat := Normalize(candidate), Normalize(pattern);
    if pat == "" then false
    else if pat[|pat| - 1] == '/' then
      var prefix := pat[..|pat| - 1];
      prefix != "" && (Matches(path, prefix) || exists i :: 0 <= i < |path| && path[i] == '/' && Matches(path[..i], prefix))
    else Matches(path, pat)
  }

  method GlobMatch(candidate: string, pattern: string) returns (matched: bool)
    ensures matched == Accepts(candidate, pattern)
  {
    hide Matches;
    var path, pat := Normalize(candidate), Normalize(pattern);
    if pat == "" {
      return false;
    }
    if pat[|pat| - 1] != '/' {
      matched := GlobMatchExact(path, pat);
      return;
    }
    var prefix := pat[..|pat| - 1];
    if prefix == "" {
      return false;
    }
    matched := GlobMatchExact(path, prefix);
    if matched {
      return;
    }
    for i := 0 to |path|
      invariant forall j :: 0 <= j < i && path[j] == '/' ==> !Matches(path[..j], prefix)
    {
      if path[i] == '/' {
        matched := GlobMatchExact(path[..i], prefix);
        if matched {
          return;
        }
      }
    }
    return false;
  }

  function Slashes(s: string): nat {
    if s == "" then 0 else (if s[0] == '/' then 1 else 0) + Slashes(s[1..])
  }

  /** No star crosses a path separator: a match has as many separators as its pattern. */
  lemma {:induction false} MatchKeepsDepth(c: string, p: string)
    requires Matches(c, p)
    ensures Slashes(c) == Slashes(p)
    decreases |p|, |c|
  {
    if p != "" {
      if p[0] == '*' {
        StarStep(c, p);
        if Matches(c, p[1..]) { MatchKeepsDepth(c, p[1..]); } else { MatchKeepsDepth(c[1..], p); }
      } else {
        MatchKeepsDepth(c[1..], p[1..]);
      }
    }
  }
}
