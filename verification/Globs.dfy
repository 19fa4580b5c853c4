/**
 Wildcard pattern bodies: what the compiled regular expression accepts, and why
 the safe tokens of a body are always among the tokens of a name it matches.
 */
module Globs {
  import opened Domains
  import opened Tokens

  /** A wildcard pattern as `build_wildcard_regex` receives it. */
  datatype Glob = Glob(body: string, subdomainAnchor: bool, startAnchor: bool, endAnchor: bool)

  const KELVIN: char := '\U{212A}'
  const LONG_S: char := '\U{017F}'

  /** The two characters outside ASCII that case-insensitively equal an ASCII letter. */
  predicate IsFoldChar(c: char) {
    c == KELVIN || c == LONG_S
  }

  /** Simple case folding, restricted to what an ASCII name can observe. */
  function Fold(c: char): char {
    if c == KELVIN then 'k' else if c == LONG_S then 's' else LowerChar(c)
  }

  /** The class written for `^`: anything but letters, digits, `.`, `_` and `-`. */
  predicate IsSeparator(c: char) {
    !IsTokenChar(c) && c != '.' && c != '_' && c != '-' && !IsFoldChar(c)
  }

  predicate AnyButNewline(s: string) {
    forall k :: 0 <= k < |s| ==> s[k] != '\n'
  }

  /** `body` accepts exactly `name[i..j]`; `$` looks at the end of the whole name. */
  predicate GlobAt(body: string, name: string, i: nat, j: nat)
    requires i <= j <= |name|
    decreases |body|
  {
    if body == [] then i == j
    else if body[0] == '*' then
      exists k :: i <= k <= j && AnyButNewline(name[i..k]) && GlobAt(body[1..], name, k, j)
    else if body[0] == '^' then
      || (i < j && IsSeparator(name[i]) && GlobAt(body[1..], name, i + 1, j))
      || (i == |name| && GlobAt(body[1..], name, i, j))
    else
      i < j && Fold(body[0]) == Fold(name[i]) && GlobAt(body[1..], name, i + 1, j)
  }

  predicate StartsAt(g: Glob, name: string, i: nat)
    requires i <= |name|
  {
    if g.subdomainAnchor then i == 0 || name[i - 1] == '.'
    else g.startAnchor ==> i == 0
  }

  /** The compiled pattern finds a match somewhere in `name`. */
  predicate GlobMatches(g: Glob, name: string) {
    exists i: nat, j: nat ::
      i <= j <= |name| && StartsAt(g, name, i) && GlobAt(g.body, name, i, j) && (g.endAnchor ==> j == |name|)
  }

  /** A match in which the body from position `a` on accepts `name[m..j]`. */
  ghost predicate AlignedAt(body: string, a: nat, name: string, i: nat, m: nat, j: nat) {
    && a <= |body| && i <= m <= j <= |name|
    && GlobAt(body[..a], name, i, m) && GlobAt(body[a..], name, m, j)
  }

  lemma {:induction false} GlobSplit(body: string, a: nat, name: string, i: nat, j: nat) returns (m: nat)
    requires a <= |body| && i <= j <= |name| && GlobAt(body, name, i, j)
    ensures AlignedAt(body, a, name, i, m, j)
    decreases a
  {
    if a == 0 {
      m := i;
      assert body[0..] == body;
    } else {
      var k := FirstStep(body, name, i, j);
      m := GlobSplit(body[1..], a - 1, name, k, j);
      assert body[..a][1..] == body[1..][..a - 1];
      assert body[a..] == body[1..][a - 1..];
    }
  }

  /** How far the first element of the body reaches. */
  lemma FirstStep(body: string, name: string, i: nat, j: nat) returns (k: nat)
    requires body != [] && i <= j <= |name| && GlobAt(body, name, i, j)
    ensures i <= k <= j && GlobAt(body[1..], name, k, j)
    ensures body[0] == '*' ==> AnyButNewline(name[i..k])
    ensures body[0] == '^' ==> (k == i + 1 && IsSeparator(name[i])) || k == i == |name|
    ensures body[0] != '*' && body[0] != '^' ==> k == i + 1 && Fold(body[0]) == Fold(name[i])
  {
    if body[0] == '*' {
      k :| i <= k <= j && AnyButNewline(name[i..k]) && GlobAt(body[1..], name, k, j);
    } else if body[0] == '^' && !(i < j && IsSeparator(name[i]) && GlobAt(body[1..], name, i + 1, j)) {
      k := i;
    } else {
      k := i + 1;
    }
  }

  lemma {:induction false} GlobJoin(u: string, v: string, name: string, i: nat, m: nat, j: nat)
    requires i <= m <= j <= |name| && GlobAt(u, name, i, m) && GlobAt(v, name, m, j)
    ensures GlobAt(u + v, name, i, j)
    decreases |u|
  {
    if u == [] {
      assert u + v == v;
    } else {
      var k := FirstStep(u, name, i, m);
      GlobJoin(u[1..], v, name, k, m, j);
      assert (u + v)[1..] == u[1..] + v;
    }
  }

  lemma TokenCharFolds(b: char, c: char)
    requires IsTokenChar(b) && c as int < 128 && Fold(b) == Fold(c)
    ensures LowerChar(b) == LowerChar(c) && IsTokenChar(c)
  {
  }

  /** A run of token characters in a body is matched letter by letter. */
  lemma {:induction false} LiteralRun(body: string, n: nat, name: string, m: nat, j: nat)
    requires n <= |body| && m <= j <= |name| && IsAscii(name) && GlobAt(body, name, m, j)
    requires forall k :: 0 <= k < n ==> IsTokenChar(body[k])
    ensures m + n <= j && SameButForCase(name[m..m + n], body[..n])
    ensures forall k :: m <= k < m + n ==> IsTokenChar(name[k])
    ensures GlobAt(body[n..], name, m + n, j)
    decreases n
  {
    if n == 0 {
      assert body[0..] == body;
    } else {
      assert IsTokenChar(body[0]);
      TokenCharFolds(body[0], name[m]);
      LiteralRun(body[1..], n - 1, name, m + 1, j);
      assert body[1..][n - 1..] == body[n..];
      var p, q := name[m..m + n], body[..n];
      forall k | 0 <= k < n ensures LowerChar(p[k]) == LowerChar(q[k]) {
        if k > 0 {
          assert p[k] == name[m + 1..m + n][k - 1] && q[k] == body[1..][..n - 1][k - 1];
        }
      }
    }
  }

  /** Next to a safe run, a plain non-token character keeps the run maximal. */
  lemma PlainNeighbour(body: string, name: string, i: nat, j: nat)
    requires body != [] && i <= j <= |name| && IsAscii(name) && GlobAt(body, name, i, j)
    requires body[0] != '*' && !IsTokenChar(body[0]) && !IsFoldChar(body[0])
    ensures (i < |name| && !IsTokenChar(name[i]) && i < j && GlobAt(body[1..], name, i + 1, j))
            || (i == |name| && GlobAt(body[1..], name, i, j))
  {
    var k := FirstStep(body, name, i, j);
    if k == i + 1 {
      assert name[i] as int < 128;
    }
  }

  /** A safe run with plain neighbours is a maximal run wherever the body matches. */
  lemma SafeRunIsQueryRun(body: string, a: nat, b: nat, name: string, i: nat, m: nat, j: nat)
    requires IsSafeRun(body, a, b) && !IsFoldChar(body[a - 1]) && !IsFoldChar(body[b])
    requires IsAscii(name) && AlignedAt(body, a, name, i, m, j)
    ensures IsRun(name, m, m + (b - a)) && SameButForCase(name[m..m + (b - a)], body[a..b])
  {
    var n := b - a;
    assert forall k :: 0 <= k < n ==> body[a..][k] == body[a + k];
    LiteralRun(body[a..], n, name, m, j);
    assert body[a..][..n] == body[a..b];
    assert body[a..][n..] == body[b..];
    PlainNeighbour(body[b..], name, m + n, j);
    var m0 := GlobSplit(body[..a], a - 1, name, i, m);
    assert body[..a][a - 1..] == [body[a - 1]];
    PlainNeighbour([body[a - 1]], name, m0, m);
    assert [body[a - 1]][1..] == [];
    assert m0 < |name|;
    assert m == m0 + 1;
  }

  /** No folding character touches a safe run: what the prefilter needs of a body. */
  ghost predicate FoldSafe(body: string) {
    forall a: nat, b: nat :: IsSafeRun(body, a, b) ==> !IsFoldChar(body[a - 1]) && !IsFoldChar(body[b])
  }

  lemma AsciiIsFoldSafe(body: string)
    requires IsAscii(body)
    ensures FoldSafe(body)
  {
    forall a: nat, b: nat | IsSafeRun(body, a, b) ensures !IsFoldChar(body[a - 1]) && !IsFoldChar(body[b]) {
      assert body[a - 1] as int < 128 && body[b] as int < 128;
    }
  }

  lemma LowerKeepsSafeRuns(body: string, a: nat, b: nat)
    ensures IsSafeRun(Lower(body), a, b) <==> IsSafeRun(body, a, b)
    ensures IsSafeRun(body, a, b) ==> FastHash(Lower(body)[a..b]) == FastHash(body[a..b])
  {
    var l := Lower(body);
    assert forall k :: 0 <= k < |body| ==> (IsTokenChar(l[k]) <==> IsTokenChar(body[k]));
    assert forall k :: 0 <= k < |body| ==> (l[k] == '*' <==> body[k] == '*');
    if IsSafeRun(body, a, b) {
      assert forall k :: 0 <= k < b - a ==> LowerChar(l[a..b][k]) == LowerChar(body[a..b][k]);
      HashFromIgnoresCase(FNV_OFFSET, l[a..b], body[a..b]);
    }
  }

  /**
   The prefilter never hides a match: each token stored for a body, which is
   computed on its lower-cased text, is emitted for every ASCII name it matches.
   */
  lemma PrefilterIsSound(g: Glob, name: string, h: Token)
    requires FoldSafe(g.body) && IsAscii(name) && GlobMatches(g, name)
    requires IsSafeToken(Lower(g.body), h)
    ensures IsQueryToken(name, h)
  {
    var a: nat, b: nat :| IsSafeRun(Lower(g.body), a, b) && h == FastHash(Lower(g.body)[a..b]);
    LowerKeepsSafeRuns(g.body, a, b);
    var i: nat, j: nat :| i <= j <= |name| && StartsAt(g, name, i) && GlobAt(g.body, name, i, j);
    var m := GlobSplit(g.body, a, name, i, j);
    SafeRunIsQueryRun(g.body, a, b, name, i, m, j);
    HashFromIgnoresCase(FNV_OFFSET, name[m..m + (b - a)], g.body[a..b]);
    assert IsRun(name, m, m + (b - a));
  }

  // ---- the exact boundary of soundness ----

  /** Every character of the body can be met by an ASCII name. */
  ghost predicate AsciiOrFold(body: string) {
    forall k :: 0 <= k < |body| ==> body[k] as int < 128 || IsFoldChar(body[k])
  }

  /** A name the body accepts: stars empty, `^` an exclamation mark, letters folded. */
  function Instance(body: string): string {
    if body == [] then []
    else (if body[0] == '*' then [] else if body[0] == '^' then ['!'] else [Fold(body[0])]) + Instance(body[1..])
  }

  lemma {:induction false} InstanceIsAscii(body: string)
    requires AsciiOrFold(body)
    ensures IsAscii(Instance(body))
  {
    if body != [] {
      assert AsciiOrFold(body[1..]);
      InstanceIsAscii(body[1..]);
    }
  }

  lemma {:induction false} InstanceMatches(body: string, name: string, i: nat)
    requires i + |Instance(body)| <= |name| && name[i..i + |Instance(body)|] == Instance(body)
    ensures GlobAt(body, name, i, i + |Instance(body)|)
    decreases |body|
  {
    if body != [] {
      var n, r := |Instance(body)|, Instance(body[1..]);
      if body[0] == '*' {
        assert Instance(body) == r;
        InstanceMatches(body[1..], name, i);
        StarTakesNone(body, name, i, i + n);
      } else {
        InstanceTail(body, name, i);
        InstanceMatches(body[1..], name, i + 1);
      }
    }
  }

  lemma StarTakesNone(body: string, name: string, i: nat, j: nat)
    requires body != [] && body[0] == '*' && i <= j <= |name| && GlobAt(body[1..], name, i, j)
    ensures GlobAt(body, name, i, j)
  {
    assert AnyButNewline(name[i..i]);
  }

  lemma InstanceTail(body: string, name: string, i: nat)
    requires body != [] && body[0] != '*'
    requires i + |Instance(body)| <= |name| && name[i..i + |Instance(body)|] == Instance(body)
    ensures |Instance(body)| == 1 + |Instance(body[1..])| && name[i] == if body[0] == '^' then '!' else Fold(body[0])
    ensures name[i + 1..i + 1 + |Instance(body[1..])|] == Instance(body[1..])
  {
    var n, r := |Instance(body)|, Instance(body[1..]);
    assert name[i] == name[i..i + n][0] == Instance(body)[0];
    assert name[i + 1..i + n] == name[i..i + n][1..] == Instance(body)[1..] == r;
  }

  /** Names as the lookup sees them. */
  ghost predicate IsLookupName(name: string) {
    IsAscii(name) && Normalize(name) == name
  }

  /** A match of the whole pattern in which the body from `a` on faces `name[m..j]`. */
  ghost predicate MatchAt(g: Glob, a: nat, name: string, i: nat, m: nat, j: nat) {
    && AlignedAt(g.body, a, name, i, m, j)
    && StartsAt(g, name, i) && (g.endAnchor ==> j == |name|)
  }

  /** In every match against a lookup name the run at `[a, b)` of the body is a maximal run of the name. */
  ghost predicate RunAlwaysKept(g: Glob, a: nat, b: nat)
    requires a <= b
  {
    forall name: string, i: nat, m: nat, j: nat | IsLookupName(name) && MatchAt(g, a, name, i, m, j) :: IsRun(name, m, m + (b - a))
  }

  /** The pattern must end the name with a dot, which no lookup name has. */
  predicate EndsInDot(g: Glob) {
    g.endAnchor && g.body != [] && g.body[|g.body| - 1] == '.'
  }

  lemma EndsInDotMatchesNothing(g: Glob, a: nat, name: string, i: nat, m: nat, j: nat)
    requires EndsInDot(g)
    ensures !(IsLookupName(name) && MatchAt(g, a, name, i, m, j))
  {
    if MatchAt(g, a, name, i, m, j) {
      DotMustBeLast(g, a, name, i, m, j);
    }
  }

  lemma DotMustBeLast(g: Glob, a: nat, name: string, i: nat, m: nat, j: nat)
    requires EndsInDot(g) && MatchAt(g, a, name, i, m, j)
    ensures !IsLookupName(name)
  {
    var body, n := g.body, |g.body| - 1;
    GlobJoin(body[..a], body[a..], name, i, m, j);
    assert body[..a] + body[a..] == body;
    var k := GlobSplit(body, n, name, i, j);
    assert body[n..] == ['.'];
    LastDot(name, k, j);
  }

  lemma LastDot(name: string, k: nat, j: nat)
    requires k <= j == |name| && GlobAt(['.'], name, k, j)
    ensures !IsLookupName(name)
  {
    assert ['.'][1..] == [];
    assert k + 1 == |name| && Fold(name[k]) == Fold('.');
    if IsAscii(name) {
      assert name[k] == '.';
      NormalizeIsNormal(name);
    }
  }

  lemma {:induction false} InstanceIsLower(body: string)
    requires AsciiOrFold(body)
    ensures forall k :: 0 <= k < |Instance(body)| ==> LowerChar(Instance(body)[k]) == Instance(body)[k]
  {
    if body != [] {
      assert AsciiOrFold(body[1..]);
      InstanceIsLower(body[1..]);
    }
  }

  lemma {:induction false} InstanceSnoc(u: string, c: char)
    ensures Instance(u + [c]) == Instance(u) + (if c == '*' then [] else if c == '^' then ['!'] else [Fold(c)])
    decreases |u|
  {
    var uc := u + [c];
    if u == [] {
      assert uc[1..] == [];
      assert Instance(uc[1..]) == [];
    } else {
      assert uc[0] == u[0] && uc[1..] == u[1..] + [c];
      InstanceSnoc(u[1..], c);
    }
  }

  lemma LowerNoDotIsNormal(name: string)
    requires forall k :: 0 <= k < |name| ==> LowerChar(name[k]) == name[k]
    requires name == [] || name[|name| - 1] != '.'
    ensures Normalize(name) == name
  {
    assert TrimTrailingDots(name) == name;
    assert Lower(name) == name;
  }

  lemma JoinedIsNormal(u: string, v: string, tail: string)
    requires AsciiOrFold(u) && AsciiOrFold(v) && (tail == "" || tail == "x")
    requires var plain := Instance(u) + Instance(v); tail == "" ==> plain == [] || plain[|plain| - 1] != '.'
    ensures IsLookupName(Instance(u) + Instance(v) + tail)
  {
    InstanceIsAscii(u);
    InstanceIsAscii(v);
    InstanceIsLower(u);
    InstanceIsLower(v);
    LowerJoin(Instance(u), Instance(v), tail);
    LowerNoDotIsNormal(Instance(u) + Instance(v) + tail);
  }

  lemma LowerJoin(p: string, r: string, tail: string)
    requires IsAscii(p) && IsAscii(r) && (tail == "" || tail == "x")
    requires forall k :: 0 <= k < |p| ==> LowerChar(p[k]) == p[k]
    requires forall k :: 0 <= k < |r| ==> LowerChar(r[k]) == r[k]
    ensures var name := p + r + tail; IsAscii(name) && forall k :: 0 <= k < |name| ==> LowerChar(name[k]) == name[k]
  {
    var name := p + r + tail;
    forall k | 0 <= k < |name| ensures name[k] as int < 128 && LowerChar(name[k]) == name[k] {
      assert name[k] == if k < |p| then p[k] else if k < |p| + |r| then r[k - |p|] else tail[k - |p| - |r|];
    }
  }

  lemma HalvesMatch(g: Glob, a: nat, tail: string, j: nat)
    requires a < |g.body| && j <= |Instance(g.body[..a]) + Instance(g.body[a..]) + tail|
    requires GlobAtTail(g.body[a..], Instance(g.body[..a]) + Instance(g.body[a..]) + tail, |Instance(g.body[..a])|, j)
    requires g.endAnchor ==> j == |Instance(g.body[..a]) + Instance(g.body[a..]) + tail|
    ensures MatchAt(g, a, Instance(g.body[..a]) + Instance(g.body[a..]) + tail, 0, |Instance(g.body[..a])|, j)
  {
    var u := g.body[..a];
    var name := Instance(u) + Instance(g.body[a..]) + tail;
    assert name[0..|Instance(u)|] == Instance(u);
    InstanceMatches(u, name, 0);
  }

  predicate GlobAtTail(v: string, name: string, m: nat, j: nat) {
    m <= j <= |name| && GlobAt(v, name, m, j)
  }

  /** A lookup name in which the pattern matches with its two halves at the instances of theirs. */
  lemma InstanceAligned(g: Glob, a: nat) returns (name: string, m: nat, j: nat)
    requires a < |g.body| && AsciiOrFold(g.body) && !EndsInDot(g)
    ensures m == |Instance(g.body[..a])| && Instance(g.body[..a]) + Instance(g.body[a..]) <= name
    ensures IsLookupName(name) && MatchAt(g, a, name, 0, m, j)
  {
    var u, v := g.body[..a], g.body[a..];
    var plain := Instance(u) + Instance(v);
    m := |Instance(u)|;
    assert AsciiOrFold(u) && AsciiOrFold(v);
    var tail := if plain != [] && plain[|plain| - 1] == '.' then "x" else "";
    name := plain + tail;
    j := if g.endAnchor then |name| else |plain|;
    JoinedIsNormal(u, v, tail);
    SecondHalfMatches(u, v, tail, j, g.endAnchor);
    HalvesMatch(g, a, tail, j);
  }

  lemma SecondHalfMatches(u: string, v: string, tail: string, j: nat, endAnchor: bool)
    requires v != [] && AsciiOrFold(v)
    requires var plain := Instance(u) + Instance(v);
             && tail == (if plain != [] && plain[|plain| - 1] == '.' then "x" else "")
             && (tail == "x" && endAnchor ==> v[|v| - 1] != '.')
             && j == if endAnchor then |plain + tail| else |plain|
    ensures GlobAtTail(v, Instance(u) + Instance(v) + tail, |Instance(u)|, j)
  {
    var m, plain := |Instance(u)|, Instance(u) + Instance(v);
    var name := plain + tail;
    if tail == "x" && endAnchor {
      StarReachesOn(Instance(u), v, name);
    } else {
      PlainHalfMatches(Instance(u), v, tail);
    }
  }

  lemma PlainHalfMatches(front: string, v: string, tail: string)
    ensures GlobAtTail(v, front + Instance(v) + tail, |front|, |front + Instance(v)|)
  {
    var name := front + Instance(v) + tail;
    assert name[|front|..|front| + |Instance(v)|] == Instance(v);
    InstanceMatches(v, name, |front|);
  }

  /** A half whose instance ends in a dot, but which does not itself, ends in a star that can take more. */
  lemma StarReachesOn(front: string, v: string, name: string)
    requires v != [] && v[|v| - 1] != '.' && AsciiOrFold(v) && name == front + Instance(v) + "x"
    requires var plain := front + Instance(v); plain != [] && plain[|plain| - 1] == '.'
    ensures GlobAt(v, name, |front|, |name|)
  {
    var n := |v| - 1;
    var w, c := v[..n], v[n];
    assert v == w + [c];
    InstanceSnoc(w, c);
    StarLast(front, v, w, c, name);
  }

  lemma StarLast(front: string, v: string, w: string, c: char, name: string)
    requires v == w + [c] && c != '.' && Instance(v) == Instance(w) + (if c == '*' then [] else if c == '^' then ['!'] else [Fold(c)])
    requires AsciiOrFold(v) && name == front + Instance(v) + "x"
    requires var plain := front + Instance(v); plain != [] && plain[|plain| - 1] == '.'
    ensures GlobAt(v, name, |front|, |name|)
  {
    assert c == v[|w|];
    OnlyStarIsEmpty(front, w, c);
    assert Instance(v) == Instance(w);
    StarHalf(front, w, name);
  }

  lemma StarHalf(front: string, w: string, name: string)
    requires name == front + Instance(w) + "x"
    ensures GlobAt(w + ['*'], name, |front|, |name|)
  {
    var k := |front| + |Instance(w)|;
    assert name[|front|..k] == Instance(w);
    InstanceMatches(w, name, |front|);
    LastStar(name, k);
    GlobJoin(w, ['*'], name, |front|, k, |name|);
  }

  lemma OnlyStarIsEmpty(front: string, w: string, c: char)
    requires c != '.' && (c as int < 128 || IsFoldChar(c))
    requires var plain := front + (Instance(w) + (if c == '*' then [] else if c == '^' then ['!'] else [Fold(c)]));
             plain != [] && plain[|plain| - 1] == '.'
    ensures c == '*'
  {
  }

  lemma LastStar(name: string, k: nat)
    requires k + 1 == |name| && name[k] == 'x'
    ensures GlobAt(['*'], name, k, |name|)
  {
    assert ['*'][1..] == [];
    assert AnyButNewline(name[k..|name|]);
  }

  lemma {:induction false} InstanceLast(u: string)
    requires u != [] && IsFoldChar(u[|u| - 1])
    ensures Instance(u) != [] && IsTokenChar(Instance(u)[|Instance(u)| - 1])
  {
    if |u| > 1 {
      InstanceLast(u[1..]);
    }
  }

  lemma {:induction false} InstanceAfterRun(v: string, n: nat)
    requires n < |v| && IsFoldChar(v[n]) && forall k :: 0 <= k < n ==> IsTokenChar(v[k])
    ensures |Instance(v)| > n && IsTokenChar(Instance(v)[n])
  {
    if n > 0 {
      assert IsTokenChar(v[0]);
      InstanceAfterRun(v[1..], n - 1);
    }
  }

  lemma FoldBreaksRun(g: Glob, a: nat, b: nat)
    requires IsSafeRun(g.body, a, b) && AsciiOrFold(g.body) && !EndsInDot(g)
    requires IsFoldChar(g.body[a - 1]) || IsFoldChar(g.body[b])
    ensures !RunAlwaysKept(g, a, b)
  {
    var name, m, j := InstanceAligned(g, a);
    NeighbourIsToken(g.body, a, b, name, m);
    NotKept(g, a, b, name, m, j);
  }

  lemma NotKept(g: Glob, a: nat, b: nat, name: string, m: nat, j: nat)
    requires a <= b && IsLookupName(name) && MatchAt(g, a, name, 0, m, j) && !IsRun(name, m, m + (b - a))
    ensures !RunAlwaysKept(g, a, b)
  {
  }

  lemma NeighbourIsToken(body: string, a: nat, b: nat, name: string, m: nat)
    requires IsSafeRun(body, a, b) && (IsFoldChar(body[a - 1]) || IsFoldChar(body[b]))
    requires m == |Instance(body[..a])| && Instance(body[..a]) + Instance(body[a..]) <= name
    ensures !IsRun(name, m, m + (b - a))
  {
    var u, v := Instance(body[..a]), Instance(body[a..]);
    if IsFoldChar(body[a - 1]) {
      InstanceLast(body[..a]);
      assert name[m - 1] == (u + v)[m - 1] == u[m - 1];
    } else {
      InstanceAfterRun(body[a..], b - a);
      assert name[m + (b - a)] == (u + v)[m + (b - a)] == v[b - a];
    }
  }

  /**
   A safe run is a token of every lookup name in every match of the pattern if and
   only if neither neighbour folds to an ASCII letter, or no lookup name matches.
   */
  lemma SafeRunKeptIff(g: Glob, a: nat, b: nat)
    requires IsSafeRun(g.body, a, b) && AsciiOrFold(g.body)
    ensures RunAlwaysKept(g, a, b) <==> EndsInDot(g) || (!IsFoldChar(g.body[a - 1]) && !IsFoldChar(g.body[b]))
  {
    if EndsInDot(g) {
      forall name: string, i: nat, m: nat, j: nat ensures !(IsLookupName(name) && MatchAt(g, a, name, i, m, j)) {
        EndsInDotMatchesNothing(g, a, name, i, m, j);
      }
    } else if !IsFoldChar(g.body[a - 1]) && !IsFoldChar(g.body[b]) {
      forall name: string, i: nat, m: nat, j: nat | IsLookupName(name) && MatchAt(g, a, name, i, m, j)
        ensures IsRun(name, m, m + (b - a))
      {
        SafeRunIsQueryRun(g.body, a, b, name, i, m, j);
      }
    } else {
      FoldBreaksRun(g, a, b);
    }
  }

  // ---- an input that defeats the prefilter ----

  /** `*.Kads.*`, the capital being the Kelvin sign. */
  const KELVIN_GLOB := Glob(['*', '.', KELVIN, 'a', 'd', 's', '.', '*'], false, false, false)

  lemma KelvinBodyMatches()
    ensures GlobMatches(KELVIN_GLOB, "a.kads.net")
  {
    var body, name := KELVIN_GLOB.body, "a.kads.net";
    var tail := body[1..7];
    assert Instance(tail) == ".kads." by {
      assert tail == [tail[0]] + (['K' , 'a', 'd', 's', '.'][0 := KELVIN]);
      TailInstance(tail);
    }
    assert name[1..7] == ".kads.";
    InstanceMatches(tail, name, 1);
    assert body[1..] == tail + ['*'];
    assert ['*'][1..] == [];
    assert AnyButNewline(name[7..10]);
    assert GlobAt(['*'], name, 7, 10);
    GlobJoin(tail, ['*'], name, 1, 7, 10);
    assert AnyButNewline(name[0..1]);
    assert GlobAt(body, name, 0, 10);
  }

  lemma TailInstance(tail: string)
    requires tail == ['.', KELVIN, 'a', 'd', 's', '.']
    ensures Instance(tail) == ".kads."
  {
    assert tail[5..] == ['.'] && tail[5..][1..] == [];
    assert Instance(tail[5..]) == ['.'];
    assert Instance(tail[4..]) == ['s', '.'] by { assert tail[4..][1..] == tail[5..]; }
    assert Instance(tail[3..]) == ['d', 's', '.'] by { assert tail[3..][1..] == tail[4..]; }
    assert Instance(tail[2..]) == ['a', 'd', 's', '.'] by { assert tail[2..][1..] == tail[3..]; }
    assert Instance(tail[1..]) == ['k', 'a', 'd', 's', '.'] by { assert tail[1..][1..] == tail[2..]; }
  }

  lemma KelvinNameRuns(name: string, a: nat, b: nat)
    requires name == "a.kads.net" && IsRun(name, a, b) && b - a >= MIN_TOKEN_LEN
    ensures name[a..b] == "kads" || name[a..b] == "net"
  {
    assert name[0] == 'a' && name[1] == '.' && name[2] == 'k' && name[5] == 's' && name[6] == '.' && name[7] == 'n';
    assert a <= 1 ==> b <= 1;
    assert 2 <= a <= 6 ==> a == 2 && b == 6;
    assert a >= 7 ==> a == 7 && b == 10;
    assert name[2..6] == "kads" && name[7..10] == "net";
  }

  lemma ByteSums()
    ensures ByteSum("ads") % 2 == 0 && ByteSum("kads") % 2 == 1 && ByteSum("net") % 2 == 1
  {
    ByteSumOf3("ads");
    ByteSumOf3("net");
    assert "kads"[1..] == "ads";
    assert ByteSum("ads") == 97 + 100 + 115 && ByteSum("net") == 110 + 101 + 116;
  }

  lemma ByteSumOf3(s: string)
    requires |s| == 3
    ensures ByteSum(s) == ByteOf(s[0]) + ByteOf(s[1]) + ByteOf(s[2])
  {
    var t := s[1..];
    var u := t[1..];
    assert t == [s[1], s[2]] && u == [s[2]] && u[1..] == [];
    assert ByteSum(u) == ByteOf(s[2]) && ByteSum(t) == ByteOf(s[1]) + ByteSum(u);
  }

  lemma DifferentParity(h: Token, s: string, t: string)
    requires ByteSum(s) % 2 != ByteSum(t) % 2
    ensures HashFrom(h, s) != HashFrom(h, t)
  {
    HashParity(h, s);
    HashParity(h, t);
    ParityClash(h, ByteSum(s), ByteSum(t), HashFrom(h, s), HashFrom(h, t));
  }

  lemma ParityClash(h: nat, a: nat, b: nat, x: nat, y: nat)
    ensures a % 2 != b % 2 && x % 2 == (h + a) % 2 && y % 2 == (h + b) % 2 ==> x != y
  {
  }

  /** The run `ads` of the pattern: its hash is odd, those of `kads` and `net` are even. */
  lemma KelvinTokenIsMissing(run: string)
    requires run == KELVIN_GLOB.body[3..6]
    ensures !IsQueryToken("a.kads.net", FastHash(run))
  {
    ByteSums();
    assert run == "ads";
    var name := "a.kads.net";
    forall a: nat, b: nat | IsRun(name, a, b) && b - a >= MIN_TOKEN_LEN ensures FastHash(name[a..b]) != FastHash(run) {
      KelvinNameRuns(name, a, b);
      DifferentParity(FNV_OFFSET, name[a..b], run);
    }
  }

  lemma KelvinSafeToken(h: Token, run: string)
    requires run == KELVIN_GLOB.body[3..6]
    ensures IsSafeToken(Lower(KELVIN_GLOB.body), h) <==> h == FastHash(run)
  {
    var body := KELVIN_GLOB.body;
    forall a: nat, b: nat ensures IsSafeRun(Lower(body), a, b) <==> a == 3 && b == 6 {
      LowerKeepsSafeRuns(body, a, b);
      KelvinSafeRuns(body, a, b);
    }
    LowerKeepsSafeRuns(body, 3, 6);
    KelvinSafeRuns(body, 3, 6);
  }

  lemma KelvinSafeRuns(body: string, a: nat, b: nat)
    requires body == KELVIN_GLOB.body
    ensures IsSafeRun(body, a, b) <==> a == 3 && b == 6
  {
    assert body[0] == '*' && body[1] == '.' && body[2] == KELVIN && body[3] == 'a' && body[4] == 'd' && body[5] == 's';
    assert body[6] == '.' && body[7] == '*' && |body| == 8;
  }

  /** A pattern and a lookup name it matches, while the token stored for the pattern is not one of the name's. */
  lemma FoldingDefeatsPrefilter(run: string)
    requires run == KELVIN_GLOB.body[3..6]
    ensures GlobMatches(KELVIN_GLOB, "a.kads.net") && IsLookupName("a.kads.net")
    ensures IsSafeToken(Lower(KELVIN_GLOB.body), FastHash(run)) && !IsQueryToken("a.kads.net", FastHash(run))
  {
    KelvinBodyMatches();
    KelvinSafeToken(FastHash(run), run);
    KelvinTokenIsMissing(run);
    KelvinNameIsNormal("a.kads.net");
  }

  lemma KelvinNameIsNormal(name: string)
    requires name == "a.kads.net"
    ensures IsLookupName(name)
  {
    forall k | 0 <= k < |name| ensures name[k] as int < 128 && LowerChar(name[k]) == name[k] {
      assert name[k] in "a.kdsnet";
    }
    LowerNoDotIsNormal(name);
  }
}
