/** Host patterns of internal/routing/matcher.go: the backtracking glob loop, its declarative meaning, and
    the fast form for patterns that begin with "*.". */
module HostMatcher {
  import opened Ascii

  /* ---------- what a glob means ---------- */

  /** t is what the pattern character c may stand for. */
  predicate Fits(c: char, t: string) {
    if c == '*' then true else if c == '?' then |t| == 1 else t == [c]
  }

  function Concat(parts: seq<string>): string {
    if parts == [] then [] else parts[0] + Concat(parts[1..])
  }

  /** parts replaces the pattern p, character by character, by strings that fit. */
  ghost predicate Expands(p: string, parts: seq<string>) {
    |parts| == |p| && forall i :: 0 <= i < |p| ==> Fits(p[i], parts[i])
  }

  /** s is p with every '*' replaced by some string, every '?' by some character, and all else unchanged. */
  ghost predicate GlobMeans(p: string, s: string) {
    exists parts :: Expands(p, parts) && Concat(parts) == s
  }

  /* ---------- the same, by recursion on the pattern ---------- */

  predicate Glob(p: string, s: string)
    decreases |p|
  {
    if p == [] then s == []
    else if p[0] == '*' then exists i :: 0 <= i <= |s| && Glob(p[1..], s[i..])
    else s != [] && (p[0] == '?' || p[0] == s[0]) && Glob(p[1..], s[1..])
  }

  lemma ExpandsOneMore(p: string, first: string, rest: seq<string>)
    requires p != [] && Fits(p[0], first) && Expands(p[1..], rest)
    ensures Expands(p, [first] + rest) && Concat([first] + rest) == first + Concat(rest)
  {
    var parts := [first] + rest;
    forall i | 0 <= i < |p| ensures Fits(p[i], parts[i]) {
      if i > 0 { assert p[i] == p[1..][i - 1] && parts[i] == rest[i - 1]; }
    }
    assert parts[1..] == rest;
  }

  lemma {:induction false} GlobSound(p: string, s: string)
    requires Glob(p, s)
    ensures GlobMeans(p, s)
    decreases |p|
  {
    if p == [] {
      assert Expands(p, []) && Concat([]) == s;
    } else {
      var i := 1;
      if p[0] == '*' {
        i :| 0 <= i <= |s| && Glob(p[1..], s[i..]);
      }
      GlobSound(p[1..], s[i..]);
      var rest :| Expands(p[1..], rest) && Concat(rest) == s[i..];
      ExpandsOneMore(p, s[..i], rest);
      assert s[..i] + s[i..] == s;
    }
  }

  lemma {:induction false} GlobComplete(p: string, parts: seq<string>)
    requires Expands(p, parts)
    ensures Glob(p, Concat(parts))
    decreases |p|
  {
    if p != [] {
      var s := Concat(parts);
      assert Expands(p[1..], parts[1..]);
      GlobComplete(p[1..], parts[1..]);
      assert s[|parts[0]|..] == Concat(parts[1..]);
    }
  }

  lemma GlobIsItsMeaning(p: string, s: string)
    ensures Glob(p, s) <==> GlobMeans(p, s)
  {
    if Glob(p, s) { GlobSound(p, s); }
    if GlobMeans(p, s) {
      var parts :| Expands(p, parts) && Concat(parts) == s;
      GlobComplete(p, parts);
    }
  }

  /** A run of asterisks means no more than one. */
  lemma StarStar(p: string, s: string)
    requires |p| >= 2 && p[0] == '*' && p[1] == '*'
    ensures Glob(p, s) <==> Glob(p[1..], s)
  {
    if Glob(p, s) {
      var i :| 0 <= i <= |s| && Glob(p[1..], s[i..]);
      var j :| 0 <= j <= |s[i..]| && Glob(p[1..][1..], s[i..][j..]);
      assert s[i..][j..] == s[i + j..];
    }
    if Glob(p[1..], s) {
      assert s[0..] == s;
    }
  }

  /* ---------- the loop ---------- */

  /** True exactly when the lowercased host is the lowercased pattern with each '*' replaced by some string
      and each '?' by some character. */
  method GlobMatch(pattern0: string, str0: string) returns (matched: bool)
    ensures matched <==> GlobMeans(Lower(pattern0), Lower(str0))
    decreases |pattern0|
  {
    var pattern, str := Lower(pattern0), Lower(str0);
    GlobIsItsMeaning(pattern, str);
    ghost var answer := Glob(pattern, str);
    while |pattern| > 0
      invariant Glob(pattern, str) == answer
      invariant |pattern| <= |pattern0| && Lower(pattern) == pattern && Lower(str) == str
      decreases |pattern|
    {
      if pattern[0] == '*' {
        matched := MatchAfterStar(pattern, str, |pattern0|);
        return;
      }
      if |str| == 0 || (pattern[0] != '?' && pattern[0] != str[0]) {
        return false;
      }
      LowerSuffix(pattern, 1);
      LowerSuffix(str, 1);
      pattern, str := pattern[1..], str[1..];
    }
    return |str| == 0;
  }

  /** The branch of the loop at an asterisk: skip the run of them, then try every position. */
  method MatchAfterStar(pattern0: string, str: string, ghost bound: nat) returns (matched: bool)
    requires pattern0 != [] && pattern0[0] == '*' && |pattern0| <= bound
    requires Lower(pattern0) == pattern0 && Lower(str) == str
    ensures matched <==> Glob(pattern0, str)
    decreases bound, 0
  {
    var pattern := pattern0;
    while |pattern| > 0 && pattern[0] == '*'
      invariant |pattern| <= |pattern0| && Lower(pattern) == pattern
      invariant pattern == pattern0 || |pattern| < |pattern0|
      invariant if pattern != [] && pattern[0] == '*' then Glob(pattern, str) <==> Glob(pattern0, str)
                else Glob(pattern0, str) <==> exists i :: 0 <= i <= |str| && Glob(pattern, str[i..])
    {
      if |pattern| >= 2 && pattern[1] == '*' { StarStar(pattern, str); }
      LowerSuffix(pattern, 1);
      pattern := pattern[1..];
    }
    if |pattern| == 0 {
      assert Glob(pattern, str[|str|..]);
      return true;
    }
    for i := 0 to |str| + 1
      invariant forall k :: 0 <= k < i ==> !Glob(pattern, str[k..])
    {
      var here := GlobMatch(pattern, str[i..]);
      LowerSuffix(str, i);
      GlobIsItsMeaning(pattern, str[i..]);
      if here {
        return true;
      }
    }
    return false;
  }

  /* ---------- DomainMatcher ---------- */

  predicate HasPrefix(s: string, t: string) {
    |t| <= |s| && s[..|t|] == t
  }

  predicate HasSuffix(s: string, t: string) {
    |t| <= |s| && s[|s| - |t|..] == t
  }

  /** What each kind of pattern covers. A pattern without '*' is taken literally even if it holds '?'. */
  ghost predicate Covers(pattern: string, host: string) {
    if HasPrefix(pattern, "*.") then
      HasSuffix(Lower(host), Lower(pattern[1..])) || Lower(host) == Lower(pattern[2..])
    else if '*' in pattern || pattern == "" then GlobMeans(Lower(pattern), Lower(host))
    else Lower(host) == Lower(pattern)
  }

  class DomainMatcher {
    var pattern: string
    var prefix: string
    var exact: string

    ghost predicate Valid()
      reads this
    {
      if HasPrefix(pattern, "*.") then prefix == pattern[1..] && exact == ""
      else prefix == "" && exact == if '*' in pattern then "" else Lower(pattern)
    }

    constructor (pattern: string)
      ensures Valid() && this.pattern == pattern
    {
      this.pattern := pattern;
      prefix, exact := "", "";
      if HasPrefix(pattern, "*.") {
        prefix := pattern[1..];
      } else if '*' in pattern {
        prefix, exact := "", "";
      } else {
        exact := Lower(pattern);
      }
    }

    method Match(host0: string) returns (matched: bool)
      requires Valid()
      ensures matched <==> Covers(pattern, host0)
    {
      var host := Lower(host0);
      LowerIdempotent(host0);
      if exact != "" {
        return host == exact;
      }
      if prefix != "" {
        var suffix := Lower(prefix);
        LowerSuffix(prefix, 1);
        assert prefix[1..] == pattern[2..];
        return HasSuffix(host, suffix) || host == suffix[1..];
      }
      matched := GlobMatch(pattern, host);
    }
  }

  /* ---------- the fast form against the glob ---------- */

  predicate Literal(d: string) {
    '*' !in d && '?' !in d
  }

  lemma {:induction false} GlobLiteral(d: string, s: string)
    requires Literal(d)
    ensures Glob(d, s) <==> d == s
    decreases |d|
  {
    if d != [] && s != [] {
      GlobLiteral(d[1..], s[1..]);
      assert d == [d[0]] + d[1..] && s == [s[0]] + s[1..];
    }
  }

  /** Read as a glob, "*" followed by a literal matches exactly the strings that end in it. */
  lemma StarLiteral(t: string, s: string)
    requires Literal(t)
    ensures Glob("*" + t, s) <==> HasSuffix(s, t)
  {
    assert ("*" + t)[1..] == t;
    if Glob("*" + t, s) {
      var i :| 0 <= i <= |s| && Glob(t, s[i..]);
      GlobLiteral(t, s[i..]);
    }
    if HasSuffix(s, t) {
      GlobLiteral(t, s[|s| - |t|..]);
      assert Glob(t, s[|s| - |t|..]);
    }
  }

  /** The fast form agrees with reading "*.d" as a glob, or the bare domain, on this host. */
  ghost predicate FastAgrees(d: string, h: string) {
    Covers("*." + d, h) <==> GlobMeans(Lower("*." + d), Lower(h)) || Lower(h) == Lower(d)
  }

  lemma LowerLiteral(d: string)
    ensures Literal(Lower(d)) <==> Literal(d)
  {
    forall c | c == '*' || c == '?' ensures c in Lower(d) <==> c in d {
      if c in d {
        var i :| 0 <= i < |d| && d[i] == c;
        assert Lower(d)[i] == c;
      }
      if c in Lower(d) {
        var i :| 0 <= i < |d| && Lower(d)[i] == c;
        assert d[i] == c;
      }
    }
  }

  lemma FastCovers(d: string, h: string)
    ensures Covers("*." + d, h) <==> HasSuffix(Lower(h), "." + Lower(d)) || Lower(h) == Lower(d)
  {
    var p := "*." + d;
    assert p[..2] == "*.";
    assert p[1..] == "." + d && p[2..] == d;
    LowerConcat(".", d);
    assert Lower(".") == ".";
  }

  lemma FastAgreesOnLiterals(d: string, h: string)
    requires Literal(d)
    ensures FastAgrees(d, h)
  {
    FastCovers(d, h);
    LowerLiteral(d);
    LowerConcat("*.", d);
    var t := "." + Lower(d);
    assert Lower("*.") == "*.";
    assert Lower("*." + d) == "*" + t;
    StarLiteral(t, Lower(h));
    GlobIsItsMeaning("*" + t, Lower(h));
  }

  lemma {:induction false} GlobSelf(p: string)
    ensures Glob(p, p)
  {
    if p != [] {
      GlobSelf(p[1..]);
      if p[0] == '*' { assert Glob(p[1..], p[1..]); }
    }
  }

  /** p with its character at i replaced; if that was a wildcard, p still matches the result. */
  lemma {:induction false} GlobReplaced(p: string, i: nat, c: char)
    requires i < |p| && (p[i] == '*' || p[i] == '?')
    ensures Glob(p, p[i := c])
    decreases |p|
  {
    var s := p[i := c];
    if i == 0 {
      GlobSelf(p[1..]);
      assert s[1..] == p[1..];
    } else {
      GlobReplaced(p[1..], i - 1, c);
      assert s[1..] == p[1..][i - 1 := c];
    }
  }

  /** The fast form and the glob agree on every host exactly when the domain holds no wildcard itself. */
  lemma FastSuffixIsGlobIff(d: string)
    ensures (forall h :: FastAgrees(d, h)) <==> Literal(d)
  {
    if Literal(d) {
      forall h ensures FastAgrees(d, h) { FastAgreesOnLiterals(d, h); }
    } else {
      var i := FirstWildcard(d);
      var l := Lower(d);
      var h := "." + l[i := 'a'];
      WildcardDisagrees(d, i, h);
      assert !FastAgrees(d, h);
    }
  }

  lemma FirstWildcard(d: string) returns (i: nat)
    requires !Literal(d)
    ensures i < |d| && (d[i] == '*' || d[i] == '?')
  {
    if '*' in d { i :| 0 <= i < |d| && d[i] == '*'; } else { i :| 0 <= i < |d| && d[i] == '?'; }
  }

  lemma CharByChar(s: string)
    requires forall k :: 0 <= k < |s| ==> LowerChar(s[k]) == s[k]
    ensures Lower(s) == s
  {
    forall k | 0 <= k < |s| ensures Lower(s)[k] == s[k] {}
  }

  lemma LowerReplaced(l: string, i: nat)
    requires i < |l| && Lower(l) == l
    ensures Lower(l[i := 'a']) == l[i := 'a']
  {
    var x := l[i := 'a'];
    forall k | 0 <= k < |x| ensures LowerChar(x[k]) == x[k] { assert Lower(l)[k] == LowerChar(l[k]); }
    CharByChar(x);
  }

  lemma LowerOfReplaced(l: string, i: nat)
    requires i < |l| && Lower(l) == l
    ensures Lower("." + l[i := 'a']) == "." + l[i := 'a']
  {
    LowerConcat(".", l[i := 'a']);
    assert Lower(".") == ".";
    LowerReplaced(l, i);
  }

  lemma GlobOfReplaced(l: string, i: nat, h: string)
    requires i < |l| && (l[i] == '*' || l[i] == '?') && h == "." + l[i := 'a']
    ensures Glob("*." + l, h)
  {
    var t := "." + l;
    GlobReplaced(t, i + 1, 'a');
    assert t[i + 1 := 'a'] == h;
    assert ("*." + l)[1..] == t;
    assert h[0..] == h;
  }

  lemma ReplacedDiffers(l: string, i: nat, h: string)
    requires i < |l| && l[i] != 'a' && h == "." + l[i := 'a']
    ensures !HasSuffix(h, "." + l) && h != l
  {
    var t := "." + l;
    assert h[i + 1] == 'a' && t[i + 1] == l[i];
    assert h[|h| - |t|..] == h;
  }

  lemma ReplacedIsNotCovered(d: string, i: nat, h: string)
    requires i < |d| && Lower(d)[i] != 'a' && h == "." + Lower(d)[i := 'a']
    ensures !Covers("*." + d, h)
  {
    LowerIdempotent(d);
    LowerOfReplaced(Lower(d), i);
    FastCovers(d, h);
    ReplacedDiffers(Lower(d), i, h);
  }

  lemma ReplacedIsMatched(d: string, i: nat, h: string)
    requires i < |d| && (Lower(d)[i] == '*' || Lower(d)[i] == '?') && h == "." + Lower(d)[i := 'a']
    ensures GlobMeans(Lower("*." + d), Lower(h))
  {
    LowerIdempotent(d);
    LowerOfReplaced(Lower(d), i);
    GlobOfReplaced(Lower(d), i, h);
    LowerConcat("*.", d);
    assert Lower("*.") == "*.";
    GlobIsItsMeaning("*." + Lower(d), h);
  }

  lemma WildcardDisagrees(d: string, i: nat, h: string)
    requires i < |d| && (d[i] == '*' || d[i] == '?') && h == "." + Lower(d)[i := 'a']
    ensures !FastAgrees(d, h)
  {
    assert Lower(d)[i] == LowerChar(d[i]);
    ReplacedIsNotCovered(d, i, h);
    ReplacedIsMatched(d, i, h);
  }

  /* ---------- the other forms against the glob ---------- */

  ghost predicate CoversAsGlob(p: string, h: string) {
    Covers(p, h) <==> GlobMeans(Lower(p), Lower(h))
  }

  lemma LiteralCoversAsGlob(p: string, h: string)
    requires Literal(p) && p != ""
    ensures CoversAsGlob(p, h)
  {
    LowerLiteral(p);
    GlobLiteral(Lower(p), Lower(h));
    GlobIsItsMeaning(Lower(p), Lower(h));
    assert p[0] != '*';
  }

  lemma QuestionMarkMatches(l: string, i: nat)
    requires i < |l| && l[i] == '?'
    ensures GlobMeans(l, l[i := 'a']) && l[i := 'a'] != l
  {
    GlobReplaced(l, i, 'a');
    GlobIsItsMeaning(l, l[i := 'a']);
    assert l[i := 'a'][i] != l[i];
  }

  lemma QuestionMarkDisagrees(p: string, i: nat)
    requires '*' !in p && i < |p| && p[i] == '?'
    ensures !CoversAsGlob(p, Lower(p)[i := 'a'])
  {
    LowerIdempotent(p);
    LowerReplaced(Lower(p), i);
    assert Lower(p)[i] == LowerChar(p[i]) && p[0] != '*';
    QuestionMarkMatches(Lower(p), i);
  }

  /** Any other pattern covers exactly what it matches as a glob if and only if it has an asterisk or no question
      mark: without an asterisk a question mark stands for itself. */
  lemma CoversIsGlobIff(p: string)
    requires !HasPrefix(p, "*.")
    ensures (forall h :: CoversAsGlob(p, h)) <==> '*' in p || '?' !in p
  {
    if '*' !in p && '?' in p {
      var i :| 0 <= i < |p| && p[i] == '?';
      QuestionMarkDisagrees(p, i);
    } else if '*' !in p && p != "" {
      forall h ensures CoversAsGlob(p, h) { LiteralCoversAsGlob(p, h); }
    }
  }
}
