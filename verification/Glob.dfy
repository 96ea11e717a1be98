/** The glob matcher of `src/util.rs`: a loop that, on a mismatch, returns only to the last
    star it has seen. The reference is declarative: a name matches when it can be cut into one
    piece per pattern character, each piece acceptable to its character. */
module Glob {

  /** What one pattern character may stand for. */
  predicate Accepts(c: char, piece: string) {
    if c == '*' then true else if c == '?' then |piece| == 1 else piece == [c]
  }

  function Concat(pieces: seq<string>): string {
    if pieces == [] then [] else pieces[0] + Concat(pieces[1..])
  }

  ghost predicate Splits(p: string, n: string, pieces: seq<string>) {
    && |pieces| == |p|
    && Concat(pieces) == n
    && forall i :: 0 <= i < |p| ==> Accepts(p[i], pieces[i])
  }

  /** The language of a pattern. */
  ghost predicate InLanguage(p: string, n: string) {
    exists pieces :: Splits(p, n, pieces)
  }

  /** The recursive definition of `*`, `?` and literals. */
  predicate Matches(p: string, n: string)
    decreases |p| + |n|
  {
    if p == [] then n == []
    else if p[0] == '*' then Matches(p[1..], n) || (n != [] && Matches(p, n[1..]))
    else n != [] && (p[0] == '?' || p[0] == n[0]) && Matches(p[1..], n[1..])
  }

  lemma {:induction false} SplitIntoPieces(p: string, n: string) returns (pieces: seq<string>)
    requires Matches(p, n)
    ensures Splits(p, n, pieces)
    decreases |p| + |n|
  {
    if p == [] {
      pieces := [];
    } else if p[0] == '*' && !Matches(p[1..], n) {
      var rest := SplitIntoPieces(p, n[1..]);
      pieces := [[n[0]] + rest[0]] + rest[1..];
      assert n == [n[0]] + n[1..];
      assert Concat(pieces) == [n[0]] + (rest[0] + Concat(rest[1..]));
    } else {
      var cut := if p[0] == '*' then 0 else 1;
      var rest := SplitIntoPieces(p[1..], n[cut..]);
      pieces := [n[..cut]] + rest;
      assert pieces[1..] == rest;
      assert n == n[..cut] + n[cut..];
    }
  }

  lemma {:induction false} StarAbsorbs(p: string, n: string, k: nat)
    requires p != [] && p[0] == '*' && k <= |n|
    requires Matches(p, n[k..])
    ensures Matches(p, n)
    decreases k
  {
    if k == 0 {
      assert n[k..] == n;
    } else {
      assert n[1..][k - 1..] == n[k..];
      StarAbsorbs(p, n[1..], k - 1);
    }
  }

  lemma {:induction false} PiecesMatch(p: string, n: string, pieces: seq<string>)
    requires Splits(p, n, pieces)
    ensures Matches(p, n)
    decreases |p|
  {
    if p != [] {
      var k := |pieces[0]|;
      assert n == pieces[0] + Concat(pieces[1..]);
      assert n[k..] == Concat(pieces[1..]);
      assert Splits(p[1..], n[k..], pieces[1..]);
      PiecesMatch(p[1..], n[k..], pieces[1..]);
      if p[0] == '*' {
        assert Matches(p, n[k..]);
        StarAbsorbs(p, n, k);
      }
    }
  }

  /** The recursive definition decides exactly the declarative language. */
  lemma MatchesIsLanguage(p: string, n: string)
    ensures Matches(p, n) <==> InLanguage(p, n)
  {
    if Matches(p, n) {
      var pieces := SplitIntoPieces(p, n);
    }
    if InLanguage(p, n) {
      var pieces :| Splits(p, n, pieces);
      PiecesMatch(p, n, pieces);
    }
  }

  /** `p[a..b]` has no star and matches the `b - a` characters of `n` from `k`. */
  ghost predicate LiteralAt(p: string, a: nat, b: nat, n: string, k: nat) {
    && a <= b <= |p| && k + (b - a) <= |n|
    && forall i :: a <= i < b ==> p[i] != '*' && (p[i] == '?' || p[i] == n[k + (i - a)])
  }

  lemma {:induction false} LiteralStrips(p: string, a: nat, b: nat, n: string, k: nat)
    requires LiteralAt(p, a, b, n, k)
    ensures Matches(p[a..], n[k..]) == Matches(p[b..], n[k + (b - a)..])
    decreases b - a
  {
    if a < b {
      LiteralStrips(p, a + 1, b, n, k + 1);
      assert p[a..][0] == p[a] && p[a..][1..] == p[a + 1..];
      assert n[k..][0] == n[k] && n[k..][1..] == n[k + 1..];
    }
  }

  /** A star-free segment can match only where its characters fit. */
  lemma {:induction false} SegmentFits(p: string, a: nat, b: nat, n: string, k: nat)
    requires a <= b <= |p| && k <= |n|
    requires forall i :: a <= i < b ==> p[i] != '*'
    requires Matches(p[a..], n[k..])
    ensures LiteralAt(p, a, b, n, k)
    decreases b - a
  {
    if a < b {
      assert p[a..][0] == p[a] && p[a..][1..] == p[a + 1..];
      assert n[k..][1..] == n[k + 1..];
      SegmentFits(p, a + 1, b, n, k + 1);
    }
  }

  /** A pattern starting with a star matches exactly when its tail matches some suffix. */
  lemma {:induction false} StarChoosesSuffix(p: string, s: nat, n: string, k: nat) returns (at: nat)
    requires s < |p| && p[s] == '*' && k <= |n|
    requires Matches(p[s..], n[k..])
    ensures k <= at <= |n| && Matches(p[s + 1..], n[at..])
    decreases |n| - k
  {
    assert p[s..][0] == '*' && p[s..][1..] == p[s + 1..];
    if Matches(p[s + 1..], n[k..]) {
      at := k;
    } else {
      assert n[k..][1..] == n[k + 1..];
      at := StarChoosesSuffix(p, s, n, k + 1);
    }
  }

  lemma StarTakesNone(p: string, s: nat, n: string, k: nat)
    requires s < |p| && p[s] == '*' && k <= |n| && Matches(p[s + 1..], n[k..])
    ensures Matches(p[s..], n[k..])
  {
    assert p[s..][0] == '*' && p[s..][1..] == p[s + 1..];
  }

  lemma LiteralNone(p: string, a: nat, n: string, k: nat)
    requires a <= |p| && k <= |n|
    ensures LiteralAt(p, a, a, n, k)
  {
  }

  lemma LiteralMore(p: string, a: nat, b: nat, n: string, k: nat)
    requires LiteralAt(p, a, b, n, k) && b < |p| && k + (b - a) < |n|
    requires p[b] != '*' && (p[b] == '?' || p[b] == n[k + (b - a)])
    ensures LiteralAt(p, a, b + 1, n, k)
  {
  }

  lemma Mismatch(p: string, a: nat, n: string, k: nat)
    requires a <= |p| && k < |n| && (a == |p| || (p[a] != '*' && p[a] != '?' && p[a] != n[k]))
    ensures !Matches(p[a..], n[k..])
  {
    assert a < |p| ==> p[a..][0] == p[a] && n[k..][0] == n[k];
  }

  /** Forgetting the earlier star is sound: once a later star is reached, whatever the earlier
      star could still absorb the later one can absorb instead. */
  lemma NewStarSuffices(p: string, s: nat, pi: nat, n: string, ms: nat, ni: nat)
    requires s < pi < |p| && p[s] == '*' && p[pi] == '*' && ms <= ni <= |n|
    requires LiteralAt(p, s + 1, pi, n, ms) && ni == ms + (pi - (s + 1))
    ensures Matches(p[s..], n[ms..]) == Matches(p[pi..], n[ni..])
  {
    hide Matches;
    LiteralStrips(p, s + 1, pi, n, ms);
    if Matches(p[pi..], n[ni..]) {
      StarTakesNone(p, s, n, ms);
    }
    if Matches(p[s..], n[ms..]) {
      var at := StarChoosesSuffix(p, s, n, ms);
      SegmentFits(p, s + 1, pi, n, at);
      LiteralStrips(p, s + 1, pi, n, at);
      var later := at + (pi - (s + 1));
      assert n[ni..][later - ni..] == n[later..];
      StarAbsorbs(p[pi..], n[ni..], later - ni);
    }
  }

  /** When the star's tail fails at its current start, the star must absorb one more character. */
  lemma StarMustAdvance(p: string, s: nat, pi: nat, n: string, ms: nat, ni: nat)
    requires s < pi <= |p| && p[s] == '*' && ms <= ni < |n|
    requires LiteralAt(p, s + 1, pi, n, ms) && ni == ms + (pi - (s + 1))
    requires pi == |p| || (p[pi] != '*' && p[pi] != '?' && p[pi] != n[ni])
    ensures Matches(p[s..], n[ms..]) == Matches(p[s..], n[ms + 1..])
  {
    LiteralStrips(p, s + 1, pi, n, ms);
    assert p[s..][0] == '*' && p[s..][1..] == p[s + 1..];
    assert n[ms..][1..] == n[ms + 1..];
    assert pi < |p| ==> p[pi..][0] == p[pi] && n[ni..][0] == n[ni];
  }

  /** With the name used up, only the current start of the last star can still succeed. */
  lemma NameUsedUp(p: string, s: nat, pi: nat, n: string, ms: nat)
    requires s < pi <= |p| && p[s] == '*'
    requires LiteralAt(p, s + 1, pi, n, ms) && |n| == ms + (pi - (s + 1))
    ensures Matches(p[s..], n[ms..]) == Matches(p[pi..], [])
  {
    LiteralStrips(p, s + 1, pi, n, ms);
    assert n[|n|..] == [];
    assert p[s..][0] == '*' && p[s..][1..] == p[s + 1..];
    if Matches(p[s..], n[ms..]) {
      var at := StarChoosesSuffix(p, s, n, ms);
      SegmentFits(p, s + 1, pi, n, at);
    }
  }

  lemma {:induction false} OnlyStarsMatchEmpty(p: string, a: nat)
    requires a <= |p|
    ensures Matches(p[a..], []) <==> forall i :: a <= i < |p| ==> p[i] == '*'
    decreases |p| - a
  {
    if a < |p| {
      assert p[a..][0] == p[a] && p[a..][1..] == p[a + 1..];
      OnlyStarsMatchEmpty(p, a + 1);
    }
  }

  /** `fnmatch`. `lower` stands for the library's lower-casing of a whole string. */
  method Fnmatch(pattern: string, name: string, ignoreCase: bool, lower: string -> string)
    returns (r: bool)
    ensures r <==> InLanguage(if ignoreCase then lower(pattern) else pattern,
                              if ignoreCase then lower(name) else name)
  {
    var p := if ignoreCase then lower(pattern) else pattern;
    var n := if ignoreCase then lower(name) else name;
    var pi, ni := 0, 0;
    var star := -1;
    var matchStart := 0;
    hide Matches, InLanguage, LiteralAt;
    MatchesIsLanguage(p, n);
    LiteralNone(p, 0, n, 0);
    assert p[0..] == p && n[0..] == n;
    while ni < |n|
      invariant 0 <= pi <= |p| && 0 <= matchStart <= ni <= |n| && -1 <= star < |p|
      invariant InLanguage(p, n) <==> Matches(p, n)
      invariant star == -1 ==> LiteralAt(p, 0, pi, n, 0) && pi == ni && matchStart == 0
      invariant star != -1 ==>
        && star < pi && p[star] == '*' && ni == matchStart + (pi - (star + 1))
        && LiteralAt(p, star + 1, pi, n, matchStart)
        && Matches(p, n) == Matches(p[star..], n[matchStart..])
      decreases |p| - star, |n| - matchStart, |n| - ni
    {
      if pi < |p| && p[pi] == '*' {
        if star == -1 {
          LiteralStrips(p, 0, pi, n, 0);
        } else {
          NewStarSuffices(p, star, pi, n, matchStart, ni);
        }
        star := pi;
        matchStart := ni;
        pi := pi + 1;
        LiteralNone(p, pi, n, ni);
      } else if pi < |p| && (p[pi] == '?' || p[pi] == n[ni]) {
        LiteralMore(p, star + 1, pi, n, matchStart);
        pi := pi + 1;
        ni := ni + 1;
      } else if star != -1 {
        StarMustAdvance(p, star, pi, n, matchStart, ni);
        pi := star + 1;
        matchStart := matchStart + 1;
        ni := matchStart;
        LiteralNone(p, pi, n, ni);
      } else {
        LiteralStrips(p, 0, pi, n, 0);
        Mismatch(p, pi, n, ni);
        return false;
      }
    }
    if star == -1 {
      LiteralStrips(p, 0, pi, n, 0);
      assert n[|n|..] == [];
    } else {
      NameUsedUp(p, star, pi, n, matchStart);
    }
    OnlyStarsMatchEmpty(p, pi);
    while pi < |p| && p[pi] == '*'
      invariant 0 <= pi <= |p|
      invariant Matches(p, n) <==> forall i :: pi <= i < |p| ==> p[i] == '*'
    {
      pi := pi + 1;
    }
    r := pi == |p|;
  }
}
