/**
 Normalised host names, the subdomain relation, and the suffix walk that the
 filter index and the list pruner both use.
 */
module Domains {
  function LowerChar(c: char): char {
    if 'A' <= c <= 'Z' then ((c as int) - ('A' as int) + ('a' as int)) as char else c
  }

  function Lower(s: string): (r: string)
    ensures |r| == |s|
    ensures forall i :: 0 <= i < |s| ==> r[i] == LowerChar(s[i])
  {
    if s == [] then [] else [LowerChar(s[0])] + Lower(s[1..])
  }

  function TrimTrailingDots(s: string): (r: string)
    ensures r <= s
    ensures r != [] ==> r[|r| - 1] != '.'
    ensures forall i :: |r| <= i < |s| ==> s[i] == '.'
  {
    if s != [] && s[|s| - 1] == '.' then TrimTrailingDots(s[..|s| - 1]) else s
  }

  /** The form in which `check` compares names: lower case, no trailing dot. */
  function Normalize(s: string): string {
    Lower(TrimTrailingDots(s))
  }

  predicate EndsWith(s: string, t: string) {
    |t| <= |s| && s[|s| - |t|..] == t
  }

  predicate IsSubdomainOf(domain: string, base: string) {
    || domain == base
    || (&& |domain| > |base|
        && EndsWith(domain, base)
        && domain[|domain| - |base| - 1] == '.')
  }

  /** Position of the first dot, or the length when there is none. */
  function FirstDot(s: string): (i: nat)
    ensures i <= |s|
    ensures forall j :: 0 <= j < i ==> s[j] != '.'
    ensures i < |s| ==> s[i] == '.'
  {
    if s == [] || s[0] == '.' then 0 else 1 + FirstDot(s[1..])
  }

  /** The name itself and what follows each of its dots, left to right. */
  function DotSuffixes(s: string): (r: seq<string>)
    decreases |s|
    ensures r != [] && r[0] == s
  {
    var i := FirstDot(s);
    if i < |s| then [s] + DotSuffixes(s[i + 1..]) else [s]
  }

  lemma DotSuffixesStep(s: string, i: nat)
    requires i == FirstDot(s)
    ensures DotSuffixes(s) == [s] + (if i < |s| then DotSuffixes(s[i + 1..]) else [])
  {
  }

  /** The text after the dot at position `k` is `base`. */
  ghost predicate CutAt(s: string, k: nat, base: string) {
    k < |s| && s[k] == '.' && s[k + 1..] == base
  }

  ghost predicate IsCut(s: string, base: string) {
    s == base || exists k :: CutAt(s, k, base)
  }

  /** A proper base starts right after one of the dots of the name. */
  lemma SubdomainByCut(s: string, base: string)
    ensures IsSubdomainOf(s, base) <==> IsCut(s, base)
  {
    if IsSubdomainOf(s, base) && s != base {
      assert CutAt(s, |s| - |base| - 1, base);
    }
  }

  lemma CutOfTail(s: string, i: nat, k: nat, base: string)
    requires i < k < |s|
    ensures CutAt(s, k, base) <==> CutAt(s[i + 1..], k - i - 1, base)
  {
    assert s[i + 1..][k - i..] == s[k + 1..];
  }

  lemma IsCutAfterFirstDot(s: string, i: nat, base: string)
    requires i < |s| && s[i] == '.' && forall j :: 0 <= j < i ==> s[j] != '.'
    ensures IsCut(s, base) <==> s == base || IsCut(s[i + 1..], base)
  {
    if IsCut(s, base) && s != base {
      var k :| CutAt(s, k, base);
      if k == i {
        assert s[i + 1..] == base;
      } else {
        CutOfTail(s, i, k, base);
      }
    }
    if IsCut(s[i + 1..], base) {
      if s[i + 1..] == base {
        assert CutAt(s, i, base);
      } else {
        var k :| CutAt(s[i + 1..], k, base);
        CutOfTail(s, i, i + 1 + k, base);
      }
    }
  }

  lemma {:induction false} SuffixWalkIsCut(s: string, base: string)
    ensures base in DotSuffixes(s) <==> IsCut(s, base)
    decreases |s|
  {
    var i := FirstDot(s);
    DotSuffixesStep(s, i);
    if i < |s| {
      SuffixWalkIsCut(s[i + 1..], base);
      IsCutAfterFirstDot(s, i, base);
      assert base in [s] + DotSuffixes(s[i + 1..]) <==> base == s || base in DotSuffixes(s[i + 1..]);
    }
  }

  /** The suffix walk visits exactly the bases a name is a subdomain of. */
  lemma SuffixWalkIsSubdomain(s: string, base: string)
    ensures base in DotSuffixes(s) <==> IsSubdomainOf(s, base)
  {
    SuffixWalkIsCut(s, base);
    SubdomainByCut(s, base);
  }

  lemma SubdomainTransitive(a: string, b: string, c: string)
    requires IsSubdomainOf(a, b) && IsSubdomainOf(b, c)
    ensures IsSubdomainOf(a, c)
  {
    if a != b && b != c {
      assert a[|a| - |c|..] == b[|b| - |c|..];
      assert a[|a| - |c| - 1] == b[|b| - |c| - 1];
    }
  }

  /** Normalising leaves no upper case and no trailing dot. */
  lemma NormalizeIsNormal(s: string)
    ensures forall c :: c in Normalize(s) ==> LowerChar(c) == c
    ensures Normalize(s) == [] || Normalize(s)[|Normalize(s)| - 1] != '.'
    ensures Normalize(Normalize(s)) == Normalize(s)
  {
    var n := Normalize(s);
    var t := TrimTrailingDots(s);
    if n != [] {
      assert n[|n| - 1] == LowerChar(t[|t| - 1]);
    }
    assert TrimTrailingDots(n) == n;
    assert Lower(n) == n;
  }

  predicate IsAscii(s: string) {
    forall i :: 0 <= i < |s| ==> s[i] as int < 128
  }
}
