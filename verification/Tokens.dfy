/**
 Token hashing for the wildcard reverse index: the maximal alphanumeric runs of
 a query name, and the runs of a pattern body that every match must contain.
 */
module Tokens {
  import opened Wrappers
  import opened Domains

  const MIN_TOKEN_LEN := 3

  type Token = x: int | 0 <= x < 0x1_0000_0000

  predicate IsTokenChar(c: char) {
    'a' <= c <= 'z' || 'A' <= c <= 'Z' || '0' <= c <= '9'
  }

  /** A maximal run of token characters, `s[a..b]`. */
  ghost predicate IsRun(s: string, a: nat, b: nat) {
    && a < b <= |s|
    && (forall k :: a <= k < b ==> IsTokenChar(s[k]))
    && (a > 0 ==> !IsTokenChar(s[a - 1]))
    && (b < |s| ==> !IsTokenChar(s[b]))
  }

  const FNV_OFFSET: Token := 0x811c_9dc5
  const FNV_PRIME := 0x0100_0193

  /** Exclusive or of the low `n` bits. */
  function Xor(a: nat, b: nat, n: nat): nat {
    if n == 0 then 0 else (if a % 2 == b % 2 then 0 else 1) + 2 * Xor(a / 2, b / 2, n - 1)
  }

  const WORD_BITS: nat := 32

  function ByteOf(c: char): nat {
    (LowerChar(c) as int) % 256
  }

  /** One FNV-1a step on a byte, ignoring ASCII case. */
  function HashStep(h: Token, c: char): Token {
    (Xor(h, ByteOf(c), WORD_BITS) * FNV_PRIME) % 0x1_0000_0000
  }

  function HashFrom(h: Token, s: string): Token
    decreases |s|
  {
    if s == [] then h else HashFrom(HashStep(h, s[0]), s[1..])
  }

  /** FNV-1a over the bytes of an ASCII text. */
  function FastHash(s: string): Token {
    HashFrom(FNV_OFFSET, s)
  }

  ghost predicate SameButForCase(s: string, t: string) {
    |s| == |t| && forall i :: 0 <= i < |s| ==> LowerChar(s[i]) == LowerChar(t[i])
  }

  lemma HashStepIgnoresCase(h: Token, c: char, d: char)
    requires LowerChar(c) == LowerChar(d)
    ensures HashStep(h, c) == HashStep(h, d)
  {
  }

  lemma {:induction false} HashFromIgnoresCase(h: Token, s: string, t: string)
    requires SameButForCase(s, t)
    ensures HashFrom(h, s) == HashFrom(h, t)
    decreases |s|
  {
    if s != [] {
      HashStepIgnoresCase(h, s[0], t[0]);
      assert SameButForCase(s[1..], t[1..]);
      HashFromIgnoresCase(HashStep(h, s[0]), s[1..], t[1..]);
    }
  }

  lemma XorParity(a: nat, b: nat, n: nat)
    requires n > 0
    ensures Xor(a, b, n) % 2 == (a + b) % 2
  {
    var rest := Xor(a / 2, b / 2, n - 1);
    assert Xor(a, b, n) == (if a % 2 == b % 2 then 0 else 1) + 2 * rest;
  }

  lemma ProductParity(x: nat)
    ensures (x * FNV_PRIME) % 0x1_0000_0000 % 2 == x % 2
  {
    var y := x * FNV_PRIME;
    assert y == x + 2 * (8388809 * x);
    assert y == 2 * (0x8000_0000 * (y / 0x1_0000_0000)) + y % 0x1_0000_0000;
  }

  /** The lowest bit of a hash is the parity of the bits that go in: the multiplier is odd. */
  lemma HashStepParity(h: Token, c: char)
    ensures HashStep(h, c) % 2 == (h + ByteOf(c)) % 2
  {
    XorParity(h, ByteOf(c), WORD_BITS);
    ProductParity(Xor(h, ByteOf(c), WORD_BITS));
  }

  function ByteSum(s: string): nat {
    if s == [] then 0 else ByteOf(s[0]) + ByteSum(s[1..])
  }

  lemma ParityStep(h: int, c: int, rest: int, next: int)
    requires next % 2 == (h + c) % 2
    ensures (next + rest) % 2 == (h + (c + rest)) % 2
  {
  }

  lemma {:induction false} HashParity(h: Token, s: string)
    ensures HashFrom(h, s) % 2 == (h + ByteSum(s)) % 2
    decreases |s|
  {
    if s != [] {
      HashStepParity(h, s[0]);
      HashParity(HashStep(h, s[0]), s[1..]);
      ParityStep(h, ByteOf(s[0]), ByteSum(s[1..]), HashStep(h, s[0]));
    }
  }

  /** The hash loop: an in-order fold over the bytes. */
  method ComputeHash(s: string) returns (h: Token)
    ensures h == FastHash(s)
  {
    h := FNV_OFFSET;
    var i := 0;
    while i < |s|
      invariant 0 <= i <= |s|
      invariant HashFrom(h, s[i..]) == FastHash(s)
    {
      h := HashStep(h, s[i]);
      i := i + 1;
    }
  }

  /** A run long enough to be indexed that ends before `limit` hashes to `h`. */
  ghost predicate RunHashBefore(s: string, limit: nat, h: Token) {
    exists a: nat, b: nat ::
      IsRun(s, a, b) && b < limit && b - a >= MIN_TOKEN_LEN && h == FastHash(s[a..b])
  }

  /** `h` is the hash of one of the indexable runs of a query name. */
  ghost predicate IsQueryToken(name: string, h: Token) {
    RunHashBefore(name, |name| + 1, h)
  }

  /** Where the run of token characters that ends before `b` starts. */
  function RunStart(s: string, b: nat): (a: nat)
    requires b <= |s|
    ensures a <= b && (forall k :: a <= k < b ==> IsTokenChar(s[k])) && (a > 0 ==> !IsTokenChar(s[a - 1]))
  {
    if b == 0 || !IsTokenChar(s[b - 1]) then b else RunStart(s, b - 1)
  }

  /** The token, if any, of a run that ends at `b`. */
  function TokenEndingAt(s: string, b: nat): seq<Token>
    requires b <= |s|
  {
    var a := RunStart(s, b);
    if (b == |s| || !IsTokenChar(s[b])) && b - a >= MIN_TOKEN_LEN then [FastHash(s[a..b])] else []
  }

  /** Tokens of the runs that end before `limit`, left to right. */
  function TokensBefore(s: string, limit: nat): seq<Token>
    requires limit <= |s| + 1
  {
    if limit == 0 then [] else TokensBefore(s, limit - 1) + TokenEndingAt(s, limit - 1)
  }

  /** The tokens of a query name in the order they are streamed. */
  function QueryTokens(name: string): seq<Token> {
    TokensBefore(name, |name| + 1)
  }

  lemma RunStartOfRun(s: string, a: nat, b: nat)
    requires IsRun(s, a, b)
    ensures RunStart(s, b) == a
  {
    var a' := RunStart(s, b);
    assert a > 0 ==> !IsTokenChar(s[a - 1]);
    assert a' > 0 ==> !IsTokenChar(s[a' - 1]);
  }

  /** A run that ends at `b` and hashes to `h`. */
  ghost predicate RunHashAt(s: string, b: nat, h: Token) {
    exists a: nat :: IsRun(s, a, b) && b - a >= MIN_TOKEN_LEN && h == FastHash(s[a..b])
  }

  lemma TokenEndingIs(s: string, b: nat, h: Token)
    requires b <= |s|
    ensures h in TokenEndingAt(s, b) <==> RunHashAt(s, b, h)
  {
    var start := RunStart(s, b);
    if h in TokenEndingAt(s, b) {
      assert IsRun(s, start, b);
    }
    forall a: nat | IsRun(s, a, b) ensures a == start {
      RunStartOfRun(s, a, b);
    }
  }

  lemma {:induction false} TokensBeforeAreRuns(s: string, limit: nat, h: Token)
    requires limit <= |s| + 1
    ensures h in TokensBefore(s, limit) <==> RunHashBefore(s, limit, h)
    decreases limit
  {
    if limit > 0 {
      var b := limit - 1;
      TokensBeforeAreRuns(s, b, h);
      TokenEndingIs(s, b, h);
      OneMoreEnd(s, b, h);
    }
  }

  lemma OneMoreEnd(s: string, b: nat, h: Token)
    ensures RunHashBefore(s, b + 1, h) <==> RunHashBefore(s, b, h) || RunHashAt(s, b, h)
  {
  }

  lemma QueryTokensAreRuns(name: string)
    ensures forall h :: h in QueryTokens(name) <==> IsQueryToken(name, h)
  {
    forall h ensures h in QueryTokens(name) <==> IsQueryToken(name, h) {
      TokensBeforeAreRuns(name, |name| + 1, h);
    }
  }

  /** What the loop does at one position, `start` being the run that is open there. */
  method EmitAt(name: string, start: nat, i: nat, tokens: seq<Token>) returns (r: seq<Token>)
    requires i <= |name| && start == RunStart(name, i) && (i < |name| ==> !IsTokenChar(name[i]))
    ensures r == tokens + TokenEndingAt(name, i)
  {
    r := tokens;
    if i - start >= MIN_TOKEN_LEN {
      var t := ComputeHash(name[start..i]);
      r := r + [t];
    }
  }

  lemma NoTokenAt(name: string, i: nat)
    requires i < |name| && (IsTokenChar(name[i]) || RunStart(name, i) == i)
    ensures TokensBefore(name, i + 1) == TokensBefore(name, i)
  {
    assert TokenEndingAt(name, i) == [];
  }

  method ForEachQueryToken(name: string) returns (tokens: seq<Token>)
    ensures tokens == QueryTokens(name)
    ensures forall h :: h in tokens <==> IsQueryToken(name, h)
  {
    tokens := [];
    var start: Option<nat> := None;
    var i := 0;
    while i < |name|
      invariant 0 <= i <= |name|
      invariant RunStart(name, i) == if start.Some? then start.value else i
      invariant tokens == TokensBefore(name, i)
    {
      if IsTokenChar(name[i]) {
        if start.None? {
          start := Some(i);
        }
        NoTokenAt(name, i);
      } else if start.Some? {
        tokens := EmitAt(name, start.value, i, tokens);
        start := None;
      } else {
        NoTokenAt(name, i);
      }
      i := i + 1;
    }
    if start.Some? {
      tokens := EmitAt(name, start.value, |name|, tokens);
    }
    QueryTokensAreRuns(name);
  }

  /** An interior run of a pattern body with no `*` on either side. */
  ghost predicate IsSafeRun(body: string, a: nat, b: nat) {
    && IsRun(body, a, b)
    && b - a >= MIN_TOKEN_LEN
    && a > 0 && body[a - 1] != '*'
    && b < |body| && body[b] != '*'
  }

  ghost predicate SafeHashBefore(body: string, limit: nat, h: Token) {
    exists a: nat, b: nat ::
      IsSafeRun(body, a, b) && b <= limit && h == FastHash(body[a..b])
  }

  /** `h` is the hash of a run every match of the body must contain. */
  ghost predicate IsSafeToken(body: string, h: Token) {
    SafeHashBefore(body, |body|, h)
  }

  ghost predicate StrictlySorted(s: seq<Token>) {
    forall i, j :: 0 <= i < j < |s| ==> s[i] < s[j]
  }

  method SortDedup(xs: seq<Token>) returns (r: seq<Token>)
    ensures StrictlySorted(r)
    ensures forall h :: h in r <==> h in xs
  {
    r := [];
    var i := 0;
    while i < |xs|
      invariant 0 <= i <= |xs|
      invariant StrictlySorted(r)
      invariant forall h :: h in r <==> h in xs[..i]
    {
      var j := 0;
      while j < |r| && r[j] < xs[i]
        invariant 0 <= j <= |r|
        invariant forall k :: 0 <= k < j ==> r[k] < xs[i]
      {
        j := j + 1;
      }
      if j == |r| || r[j] != xs[i] {
        r := r[..j] + [xs[i]] + r[j..];
      }
      assert xs[..i + 1] == xs[..i] + [xs[i]];
      i := i + 1;
    }
    assert xs[..i] == xs;
  }

  method TokenizePatternSafe(body: string) returns (tokens: seq<Token>)
    ensures forall h :: h in tokens <==> IsSafeToken(body, h)
    ensures StrictlySorted(tokens)
  {
    tokens := [];
    var i := 0;
    while i < |body|
      invariant 0 <= i <= |body|
      invariant i > 0 && i < |body| ==> !IsTokenChar(body[i - 1]) || !IsTokenChar(body[i])
      invariant forall h :: h in tokens <==> SafeHashBefore(body, i, h)
    {
      if !IsTokenChar(body[i]) {
        forall h ensures SafeHashBefore(body, i, h) <==> SafeHashBefore(body, i + 1, h) {
          SafeHashSkip(body, i, i + 1, h);
        }
        i := i + 1;
        continue;
      }
      var start := i;
      while i < |body| && IsTokenChar(body[i])
        invariant start <= i <= |body|
        invariant forall k :: start <= k < i ==> IsTokenChar(body[k])
      {
        i := i + 1;
      }
      var leftOk := start > 0 && body[start - 1] != '*';
      var rightOk := i < |body| && body[i] != '*';
      if leftOk && rightOk && i - start >= MIN_TOKEN_LEN {
        var t := ComputeHash(body[start..i]);
        tokens := tokens + [t];
      }
      forall h ensures h in tokens <==> SafeHashBefore(body, i, h) {
        SafeHashRun(body, start, i, h);
      }
    }
    tokens := SortDedup(tokens);
  }

  /** No safe run ends at the position after a separator. */
  lemma SafeHashSkip(body: string, i: nat, j: nat, h: Token)
    requires j == i + 1 && i < |body| && !IsTokenChar(body[i])
    ensures SafeHashBefore(body, i, h) <==> SafeHashBefore(body, j, h)
  {
    forall a: nat, b: nat | IsSafeRun(body, a, b) && b <= j ensures b <= i {}
  }

  /** Past a whole run, the only new safe run is that run. */
  lemma SafeHashRun(body: string, start: nat, i: nat, h: Token)
    requires IsRun(body, start, i)
    ensures SafeHashBefore(body, i, h) <==>
            SafeHashBefore(body, start, h) || (IsSafeRun(body, start, i) && h == FastHash(body[start..i]))
  {
    forall a: nat, b: nat | IsSafeRun(body, a, b) && start < b <= i ensures a == start && b == i {}
  }
}
