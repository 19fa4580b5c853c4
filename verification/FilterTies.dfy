/**
 Blocks and rewrites share a priority, so the first candidate met decides between
 them. Domain buckets are hashed with a fresh random key on every compile and
 sorted unstably; this module settles when that can change a verdict, with hash
 collisions allowed and without.
 */
module FilterTies {
  import opened Wrappers
  import opened Domains
  import opened Tokens
  import opened Rules
  import opened FilterEngine
  import opened FilterCorrect
  import opened BucketOrder
  import opened ScanOrder

  /** `w` passes and every passing candidate before its first place ranks strictly lower. */
  ghost predicate FirstBest(e: Engine, ids: seq<nat>, q: Query, w: nat, k: nat)
    requires ValidEngine(e) && ValidIds(e, ids)
  {
    && k < |ids| && ids[k] == w && Passes(e, w, q)
    && (forall i :: 0 <= i < k && Passes(e, ids[i], q) ==> IdPriority(e, ids[i]) < IdPriority(e, w))
    && (forall i :: k <= i < |ids| && Passes(e, ids[i], q) ==> IdPriority(e, ids[i]) <= IdPriority(e, w))
  }

  /** `consider` on a longer list only looks past the end of the shorter one. */
  lemma {:induction false} ConsiderAppend(e: Engine, ids: seq<nat>, more: seq<nat>, q: Query, best: Option<nat>)
    requires ValidEngine(e) && ValidIds(e, ids) && ValidIds(e, more) && (best.Some? ==> best.value < |e.records|)
    ensures ValidIds(e, ids + more)
    ensures Consider(e, ids + more, q, best) == Consider(e, more, q, Consider(e, ids, q, best))
    decreases |ids|
  {
    if ids == [] {
      assert ids + more == more;
    } else {
      var id := ids[0];
      var next := if Passes(e, id, q) && (best.None? || IdPriority(e, id) > IdPriority(e, best.value)) then Some(id) else best;
      ConsiderAppend(e, ids[1..], more, q, next);
      assert (ids + more)[1..] == ids[1..] + more;
    }
  }

  lemma {:induction false} ConsiderTakesFirst(e: Engine, ids: seq<nat>, q: Query) returns (k: nat)
    requires ValidEngine(e) && ValidIds(e, ids) && Consider(e, ids, q, None).Some?
    ensures FirstBest(e, ids, q, Consider(e, ids, q, None).value, k)
    decreases |ids|
  {
    var n := |ids| - 1;
    ConsiderPicksBest(e, ids, q, None);
    assert ids != [];
    var front, last := ids[..n], [ids[n]];
    assert ids == front + last;
    ConsiderAppend(e, front, last, q, None);
    assert Consider(e, last[1..], q, None) == None;
    var r := Consider(e, front, q, None);
    ConsiderPicksBest(e, front, q, None);
    if Consider(e, ids, q, None) == r {
      k := ConsiderTakesFirst(e, front, q);
    } else {
      k := n;
      forall i | 0 <= i < n && Passes(e, ids[i], q) ensures IdPriority(e, ids[i]) < IdPriority(e, ids[n]) {
        assert ids[i] == front[i] && front[i] in front;
      }
    }
  }

  // ---- the winner is the first top rule met ----

  /** The first listed id that no applying rule outranks. */
  ghost function FirstTop(rx: RegexEngine, rules: seq<BuildRule>, q: Query, ids: seq<nat>): (r: Option<nat>)
    ensures r.Some? ==> r.value in ids && IsWinner(rx, rules, q, r.value)
    ensures r.None? <==> forall k :: 0 <= k < |ids| ==> !IsWinner(rx, rules, q, ids[k])
  {
    if ids == [] then None
    else if IsWinner(rx, rules, q, ids[0]) then Some(ids[0])
    else FirstTop(rx, rules, q, ids[1..])
  }

  lemma {:induction false} FirstTopAppend(rx: RegexEngine, rules: seq<BuildRule>, q: Query, a: seq<nat>, b: seq<nat>)
    ensures FirstTop(rx, rules, q, a + b)
            == if FirstTop(rx, rules, q, a).Some? then FirstTop(rx, rules, q, a) else FirstTop(rx, rules, q, b)
    decreases |a|
  {
    if a == [] {
      assert a + b == b;
    } else {
      assert (a + b)[1..] == a[1..] + b;
      FirstTopAppend(rx, rules, q, a[1..], b);
    }
  }

  lemma {:induction false} FirstTopIs(rx: RegexEngine, rules: seq<BuildRule>, q: Query, ids: seq<nat>, k: nat)
    requires k < |ids| && IsWinner(rx, rules, q, ids[k]) && forall i :: 0 <= i < k ==> !IsWinner(rx, rules, q, ids[i])
    ensures FirstTop(rx, rules, q, ids) == Some(ids[k])
    decreases |ids|
  {
    if k > 0 {
      FirstTopIs(rx, rules, q, ids[1..], k - 1);
    }
  }

  /** All candidates in the order they are met. */
  ghost function Order(rx: RegexEngine, e: Engine, name: string): seq<nat>
    requires ValidEngine(e)
  {
    FirstPhase(rx, e, name) + BlockPhase(rx, e, name)
  }

  lemma SamePriority(rx: RegexEngine, e: Engine, rules: seq<BuildRule>, q: Query, a: nat, b: nat)
    requires Compiled(e, rules) && WellFormed(rules) && IsWinner(rx, rules, q, a) && IsWinner(rx, rules, q, b)
    ensures Passes(e, a, q) && Passes(e, b, q) && IdPriority(e, a) == IdPriority(e, b)
  {
    PassesMeansHits(rx, e, rules, a, q);
    PassesMeansHits(rx, e, rules, b, q);
  }

  lemma FirstBestIsFirstTop(rx: RegexEngine, e: Engine, rules: seq<BuildRule>, q: Query, ids: seq<nat>, w: nat, k: nat)
    requires Compiled(e, rules) && WellFormed(rules) && ValidIds(e, ids) && FirstBest(e, ids, q, w, k) && IsWinner(rx, rules, q, w)
    ensures FirstTop(rx, rules, q, ids) == Some(w)
  {
    forall i | 0 <= i < k ensures !IsWinner(rx, rules, q, ids[i]) {
      if IsWinner(rx, rules, q, ids[i]) {
        SamePriority(rx, e, rules, q, ids[i], w);
      }
    }
    FirstTopIs(rx, rules, q, ids, k);
  }

  lemma NoPassNoTop(rx: RegexEngine, e: Engine, rules: seq<BuildRule>, q: Query, ids: seq<nat>)
    requires Compiled(e, rules) && WellFormed(rules) && ValidIds(e, ids) && Consider(e, ids, q, None).None?
    ensures FirstTop(rx, rules, q, ids) == None
  {
    ConsiderPicksBest(e, ids, q, None);
    forall k | 0 <= k < |ids| ensures !IsWinner(rx, rules, q, ids[k]) {
      assert ids[k] in ids;
      if IsWinner(rx, rules, q, ids[k]) {
        SamePriority(rx, e, rules, q, ids[k], ids[k]);
      }
    }
  }

  /** The lookup returns the first candidate met that no applying rule outranks. */
  lemma CheckTakesFirstTop(rx: RegexEngine, e: Engine, rules: seq<BuildRule>, q: Query)
    requires Compiled(e, rules) && WellFormed(rules) && IsAscii(q.name)
    ensures CheckWinner(rx, e, q) == FirstTop(rx, rules, q, Order(rx, e, q.name))
  {
    var first, second := FirstPhase(rx, e, q.name), BlockPhase(rx, e, q.name);
    FirstTopAppend(rx, rules, q, first, second);
    CheckDecides(rx, e, rules, q);
    var best := Consider(e, first, q, None);
    if best.Some? {
      var k := ConsiderTakesFirst(e, first, q);
      FirstBestIsFirstTop(rx, e, rules, q, first, best.value, k);
    } else {
      NoPassNoTop(rx, e, rules, q, first);
      if Consider(e, second, q, None).Some? {
        var k := ConsiderTakesFirst(e, second, q);
        FirstBestIsFirstTop(rx, e, rules, q, second, Consider(e, second, q, None).value, k);
      } else {
        NoPassNoTop(rx, e, rules, q, second);
      }
    }
  }

  // ---- domain rules decide before scanned ones ----

  ghost predicate ExactWinner(rx: RegexEngine, rules: seq<BuildRule>, q: Query, id: nat) {
    IsWinner(rx, rules, q, id) && rules[id].rule.pattern.Exact?
  }

  ghost predicate SubdomainWinner(rx: RegexEngine, rules: seq<BuildRule>, q: Query, id: nat) {
    IsWinner(rx, rules, q, id) && rules[id].rule.pattern.Subdomain?
  }

  ghost predicate DomainWinner(rx: RegexEngine, rules: seq<BuildRule>, q: Query, id: nat) {
    ExactWinner(rx, rules, q, id) || SubdomainWinner(rx, rules, q, id)
  }

  /** No two suffixes of the name share a hash. */
  ghost predicate Apart(hash: string -> int, name: string) {
    forall s, t :: s in DotSuffixes(name) && t in DotSuffixes(name) && hash(s) == hash(t) ==> s == t
  }

  /**
   Rules that can decide the query: top exact rules, else top subdomain rules, and
   of those only the ones of the longest domain when hashes are `apart`.
   */
  ghost predicate Decisive(rx: RegexEngine, rules: seq<BuildRule>, q: Query, id: nat, apart: bool) {
    || ExactWinner(rx, rules, q, id)
    || (&& (forall x: nat :: !ExactWinner(rx, rules, q, x))
        && SubdomainWinner(rx, rules, q, id)
        && (apart ==> forall x: nat :: SubdomainWinner(rx, rules, q, x) ==>
              |rules[x].rule.pattern.domain| <= |rules[id].rule.pattern.domain|))
  }

  lemma ExactHitInBucket(rx: RegexEngine, e: Engine, rules: seq<BuildRule>, q: Query, id: nat)
    requires Compiled(e, rules) && id < |rules| && rules[id].rule.pattern.Exact? && Hits(rx, rules[id].rule, q)
    ensures id in Bucket(e.exact, e.hash(q.name))
  {
    assert HasExact(rules, e.hash, e.hash(q.name), id);
  }

  lemma BucketIsExact(e: Engine, rules: seq<BuildRule>, h: int, id: nat)
    requires Compiled(e, rules) && id in Bucket(e.exact, h)
    ensures id < |rules| && rules[id].rule.pattern.Exact?
  {
    assert HasExact(rules, e.hash, h, id);
  }

  lemma SuffixesAreSubdomains(e: Engine, rules: seq<BuildRule>, suffixes: seq<string>, id: nat)
    requires Compiled(e, rules) && id in SuffixHits(e, suffixes)
    ensures id < |rules| && rules[id].rule.pattern.Subdomain?
  {
    SuffixHitsIn(e, rules, suffixes, id);
  }

  lemma SubdomainHitInSuffixes(rx: RegexEngine, e: Engine, rules: seq<BuildRule>, q: Query, id: nat)
    requires Compiled(e, rules) && id < |rules| && rules[id].rule.pattern.Subdomain? && Hits(rx, rules[id].rule, q)
    ensures id in SuffixHits(e, DotSuffixes(q.name)) && rules[id].rule.pattern.domain in DotSuffixes(q.name)
  {
    SuffixWalkIsSubdomain(q.name, rules[id].rule.pattern.domain);
    SuffixHitsIn(e, rules, DotSuffixes(q.name), id);
  }

  lemma OrderIs(rx: RegexEngine, e: Engine, name: string)
    requires ValidEngine(e)
    ensures Order(rx, e, name) == Bucket(e.exact, e.hash(name)) + (SuffixHits(e, DotSuffixes(name)) + Scans(rx, e, name))
  {
    Regroup(Bucket(e.exact, e.hash(name)), SuffixHits(e, DotSuffixes(name)), ScanCandidates(rx, e, e.overrideScan, name, []),
            ScanCandidates(rx, e, e.blockScan, name, QueryTokens(name)));
  }

  lemma Regroup(a: seq<nat>, b: seq<nat>, c: seq<nat>, d: seq<nat>)
    ensures ((a + b) + c) + d == a + (b + (c + d))
  {
  }

  /** The order met, cut into its parts: exact bucket, suffix walk, scans. */
  lemma OrderParts(rx: RegexEngine, e: Engine, rules: seq<BuildRule>, q: Query)
    requires ValidEngine(e)
    ensures var exact, sub, scans := Bucket(e.exact, e.hash(q.name)), SuffixHits(e, DotSuffixes(q.name)), Scans(rx, e, q.name);
            FirstTop(rx, rules, q, Order(rx, e, q.name))
            == if FirstTop(rx, rules, q, exact).Some? then FirstTop(rx, rules, q, exact)
               else if FirstTop(rx, rules, q, sub).Some? then FirstTop(rx, rules, q, sub)
               else FirstTop(rx, rules, q, scans)
  {
    var exact, sub, scans := Bucket(e.exact, e.hash(q.name)), SuffixHits(e, DotSuffixes(q.name)), Scans(rx, e, q.name);
    OrderIs(rx, e, q.name);
    FirstTopAppend(rx, rules, q, exact, sub + scans);
    FirstTopAppend(rx, rules, q, sub, scans);
  }

  ghost function Scans(rx: RegexEngine, e: Engine, name: string): seq<nat>
    requires ValidEngine(e)
  {
    ScanCandidates(rx, e, e.overrideScan, name, []) + ScanCandidates(rx, e, e.blockScan, name, QueryTokens(name))
  }

  /** If an exact rule can win, the first in the bucket of the name does. */
  lemma ExactGoesFirst(rx: RegexEngine, e: Engine, rules: seq<BuildRule>, q: Query, id: nat)
    requires Compiled(e, rules) && WellFormed(rules) && IsAscii(q.name) && ExactWinner(rx, rules, q, id)
    ensures CheckWinner(rx, e, q) == FirstTop(rx, rules, q, Bucket(e.exact, e.hash(q.name)))
    ensures CheckWinner(rx, e, q).Some? && ExactWinner(rx, rules, q, CheckWinner(rx, e, q).value)
  {
    var bucket := Bucket(e.exact, e.hash(q.name));
    CheckTakesFirstTop(rx, e, rules, q);
    OrderParts(rx, e, rules, q);
    ExactHitInBucket(rx, e, rules, q, id);
    var k :| 0 <= k < |bucket| && bucket[k] == id;
    BucketIsExact(e, rules, e.hash(q.name), FirstTop(rx, rules, q, bucket).value);
  }

  lemma NoExactTop(rx: RegexEngine, e: Engine, rules: seq<BuildRule>, q: Query)
    requires Compiled(e, rules) && forall x: nat :: !ExactWinner(rx, rules, q, x)
    ensures FirstTop(rx, rules, q, Bucket(e.exact, e.hash(q.name))) == None
  {
    var bucket := Bucket(e.exact, e.hash(q.name));
    forall k | 0 <= k < |bucket| ensures !IsWinner(rx, rules, q, bucket[k]) {
      assert bucket[k] in bucket;
      BucketIsExact(e, rules, e.hash(q.name), bucket[k]);
      assert !ExactWinner(rx, rules, q, bucket[k]);
    }
  }

  /** If no exact rule can win but a subdomain rule can, the first of the suffix walk does. */
  lemma SubdomainGoesNext(rx: RegexEngine, e: Engine, rules: seq<BuildRule>, q: Query, id: nat)
    requires Compiled(e, rules) && WellFormed(rules) && IsAscii(q.name) && SubdomainWinner(rx, rules, q, id)
    requires forall x: nat :: !ExactWinner(rx, rules, q, x)
    ensures CheckWinner(rx, e, q) == FirstTop(rx, rules, q, SuffixHits(e, DotSuffixes(q.name)))
    ensures CheckWinner(rx, e, q).Some? && SubdomainWinner(rx, rules, q, CheckWinner(rx, e, q).value)
  {
    var hits := SuffixHits(e, DotSuffixes(q.name));
    CheckTakesFirstTop(rx, e, rules, q);
    OrderParts(rx, e, rules, q);
    NoExactTop(rx, e, rules, q);
    SubdomainHitInSuffixes(rx, e, rules, q, id);
    var k :| 0 <= k < |hits| && hits[k] == id;
    SuffixesAreSubdomains(e, rules, DotSuffixes(q.name), FirstTop(rx, rules, q, hits).value);
  }

  lemma NoSubdomainTop(rx: RegexEngine, e: Engine, rules: seq<BuildRule>, q: Query, suffixes: seq<string>)
    requires Compiled(e, rules) && forall x: nat :: !SubdomainWinner(rx, rules, q, x)
    ensures FirstTop(rx, rules, q, SuffixHits(e, suffixes)) == None
  {
    var hits := SuffixHits(e, suffixes);
    forall k | 0 <= k < |hits| ensures !IsWinner(rx, rules, q, hits[k]) {
      assert hits[k] in hits;
      SuffixesAreSubdomains(e, rules, suffixes, hits[k]);
      assert !SubdomainWinner(rx, rules, q, hits[k]);
    }
  }

  /** Without a top domain rule, the scans decide. */
  lemma ScansGoLast(rx: RegexEngine, e: Engine, rules: seq<BuildRule>, q: Query)
    requires Compiled(e, rules) && WellFormed(rules) && IsAscii(q.name)
    requires forall x: nat :: !DomainWinner(rx, rules, q, x)
    ensures CheckWinner(rx, e, q) == FirstTop(rx, rules, q, Scans(rx, e, q.name))
  {
    CheckTakesFirstTop(rx, e, rules, q);
    OrderParts(rx, e, rules, q);
    assert forall x: nat :: !ExactWinner(rx, rules, q, x) by {
      forall x: nat ensures !ExactWinner(rx, rules, q, x) { assert !DomainWinner(rx, rules, q, x); }
    }
    assert forall x: nat :: !SubdomainWinner(rx, rules, q, x) by {
      forall x: nat ensures !SubdomainWinner(rx, rules, q, x) { assert !DomainWinner(rx, rules, q, x); }
    }
    NoExactTop(rx, e, rules, q);
    NoSubdomainTop(rx, e, rules, q, DotSuffixes(q.name));
  }

  // ---- with hashes apart, the longest domain goes first ----

  lemma SuffixBucket(rx: RegexEngine, e: Engine, rules: seq<BuildRule>, q: Query, s: string, id: nat)
    requires Compiled(e, rules) && Apart(e.hash, q.name) && s in DotSuffixes(q.name)
    requires id in Bucket(e.subdomain, e.hash(s)) && SubdomainWinner(rx, rules, q, id)
    ensures rules[id].rule.pattern.domain == s
  {
    assert HasSubdomain(rules, e.hash, e.hash(s), id);
    SubdomainHitInSuffixes(rx, e, rules, q, id);
  }

  lemma SuffixStep(rx: RegexEngine, e: Engine, rules: seq<BuildRule>, q: Query, suffixes: seq<string>)
    requires ValidEngine(e) && suffixes != []
    ensures FirstTop(rx, rules, q, SuffixHits(e, suffixes))
            == var here := FirstTop(rx, rules, q, Bucket(e.subdomain, e.hash(suffixes[0])));
               if here.Some? then here else FirstTop(rx, rules, q, SuffixHits(e, suffixes[1..]))
  {
    FirstTopAppend(rx, rules, q, Bucket(e.subdomain, e.hash(suffixes[0])), SuffixHits(e, suffixes[1..]));
  }

  ghost predicate Within(suffixes: seq<string>, name: string) {
    forall k :: 0 <= k < |suffixes| ==> suffixes[k] in DotSuffixes(name)
  }

  /** Among suffixes of one name, if none of those in front holds a top rule, the bucket of `d` decides. */
  lemma {:induction false} BucketDecides(rx: RegexEngine, e: Engine, rules: seq<BuildRule>, q: Query, suffixes: seq<string>, d: string)
    requires Compiled(e, rules) && Apart(e.hash, q.name) && Within(suffixes, q.name) && d in suffixes
    requires forall x: nat :: SubdomainWinner(rx, rules, q, x) ==> |rules[x].rule.pattern.domain| <= |d|
    requires forall j, k :: 0 <= j < k < |suffixes| ==> |suffixes[j]| > |suffixes[k]|
    requires FirstTop(rx, rules, q, Bucket(e.subdomain, e.hash(d))).Some?
    ensures FirstTop(rx, rules, q, SuffixHits(e, suffixes)) == FirstTop(rx, rules, q, Bucket(e.subdomain, e.hash(d)))
    decreases |suffixes|
  {
    SuffixStep(rx, e, rules, q, suffixes);
    var s := suffixes[0];
    if s != d {
      var k :| 0 <= k < |suffixes| && suffixes[k] == d;
      assert d == suffixes[1..][k - 1];
      assert |s| > |d|;
      NoTopInBucket(rx, e, rules, q, s, |d|);
      assert forall j :: 0 <= j < |suffixes[1..]| ==> suffixes[1..][j] == suffixes[j + 1];
      BucketDecides(rx, e, rules, q, suffixes[1..], d);
    }
  }

  lemma NoTopInBucket(rx: RegexEngine, e: Engine, rules: seq<BuildRule>, q: Query, s: string, longest: nat)
    requires Compiled(e, rules) && Apart(e.hash, q.name) && s in DotSuffixes(q.name) && |s| > longest
    requires forall x: nat :: SubdomainWinner(rx, rules, q, x) ==> |rules[x].rule.pattern.domain| <= longest
    ensures FirstTop(rx, rules, q, Bucket(e.subdomain, e.hash(s))) == None
  {
    var bucket := Bucket(e.subdomain, e.hash(s));
    forall k | 0 <= k < |bucket| ensures !IsWinner(rx, rules, q, bucket[k]) {
      var id: nat := bucket[k];
      assert id in bucket;
      assert HasSubdomain(rules, e.hash, e.hash(s), id);
      if SubdomainWinner(rx, rules, q, id) {
        SuffixBucket(rx, e, rules, q, s, id);
      }
    }
  }

  /** The subdomain winner of the lookup has the longest domain of all. */
  lemma {:induction false} LongestGoesFirst(rx: RegexEngine, e: Engine, rules: seq<BuildRule>, q: Query, suffixes: seq<string>, x: nat)
    requires Compiled(e, rules) && Apart(e.hash, q.name) && Within(suffixes, q.name)
    requires forall j, k :: 0 <= j < k < |suffixes| ==> |suffixes[j]| > |suffixes[k]|
    requires SubdomainWinner(rx, rules, q, x) && rules[x].rule.pattern.domain in suffixes
    ensures var w := FirstTop(rx, rules, q, SuffixHits(e, suffixes));
            w.Some? && w.value < |rules| && rules[w.value].rule.pattern.Subdomain?
            && |rules[x].rule.pattern.domain| <= |rules[w.value].rule.pattern.domain|
    decreases |suffixes|
  {
    SuffixStep(rx, e, rules, q, suffixes);
    var s := suffixes[0];
    var bucket := Bucket(e.subdomain, e.hash(s));
    var here := FirstTop(rx, rules, q, bucket);
    var d := rules[x].rule.pattern.domain;
    if here.Some? {
      assert HasSubdomain(rules, e.hash, e.hash(s), here.value);
      SuffixBucket(rx, e, rules, q, s, here.value);
      var k :| 0 <= k < |suffixes| && suffixes[k] == d;
    } else {
      assert HasSubdomain(rules, e.hash, e.hash(d), x);
      var k :| 0 <= k < |suffixes| && suffixes[k] == d;
      assert d == suffixes[1..][k - 1];
      assert forall j :: 0 <= j < |suffixes[1..]| ==> suffixes[1..][j] == suffixes[j + 1];
      LongestGoesFirst(rx, e, rules, q, suffixes[1..], x);
    }
  }

  lemma {:induction false} SuffixesShrink(s: string)
    ensures forall k :: 0 <= k < |DotSuffixes(s)| ==> |DotSuffixes(s)[k]| <= |s|
    ensures forall j, k :: 0 <= j < k < |DotSuffixes(s)| ==> |DotSuffixes(s)[j]| > |DotSuffixes(s)[k]|
    decreases |s|
  {
    var i := FirstDot(s);
    DotSuffixesStep(s, i);
    if i < |s| {
      SuffixesShrink(s[i + 1..]);
    }
  }

  /** A top domain rule, if there is one, leaves the decision to a decisive rule. */
  lemma WinnerIsDecisive(rx: RegexEngine, e: Engine, rules: seq<BuildRule>, q: Query, x: nat, apart: bool)
    requires Compiled(e, rules) && WellFormed(rules) && IsAscii(q.name) && DomainWinner(rx, rules, q, x)
    requires apart ==> Apart(e.hash, q.name)
    ensures CheckWinner(rx, e, q).Some? && Decisive(rx, rules, q, CheckWinner(rx, e, q).value, apart)
  {
    if y: nat :| ExactWinner(rx, rules, q, y) {
      ExactGoesFirst(rx, e, rules, q, y);
    } else {
      SubdomainGoesNext(rx, e, rules, q, x);
      if apart {
        SuffixesShrink(q.name);
        var w := CheckWinner(rx, e, q).value;
        forall y: nat | SubdomainWinner(rx, rules, q, y)
          ensures |rules[y].rule.pattern.domain| <= |rules[w].rule.pattern.domain|
        {
          SubdomainHitInSuffixes(rx, e, rules, q, y);
          LongestGoesFirst(rx, e, rules, q, DotSuffixes(q.name), y);
        }
      }
    }
  }

  // ---- a compilation for every order ----

  /** A hash that numbers the given names, and puts everything else together. */
  function Numbering(names: seq<string>): string -> int {
    s => NumberOf(names, s)
  }

  function NumberOf(names: seq<string>, s: string): (n: nat)
    ensures n <= |names|
    ensures s in names <==> n < |names|
    ensures n < |names| ==> names[n] == s
  {
    if names == [] || names[0] == s then 0 else 1 + NumberOf(names[1..], s)
  }

  lemma NumberingIsApart(names: seq<string>, name: string)
    requires forall s :: s in DotSuffixes(name) ==> s in names
    ensures Apart(Numbering(names), name)
  {
  }

  /** The same rules compiled under that hash, each bucket in the order of `ids`. */
  function Arrange(e: Engine, rules: seq<BuildRule>, names: seq<string>, ids: seq<nat>): Engine {
    var hash := Numbering(names);
    e.(hash := hash, exact := IndexBelow(BucketsOf(rules, hash, true, ids), |names| + 1),
       subdomain := IndexBelow(BucketsOf(rules, hash, false, ids), |names| + 1))
  }

  lemma GroupSurvives(e: Engine, e': Engine, g: ScanGroup, rules: seq<BuildRule>, overriding: bool)
    requires |e.records| == |e'.records| && GroupFor(e, g, rules, overriding)
    ensures GroupFor(e', g, rules, overriding)
  {
  }

  /** Such an arrangement is a compilation of the list. */
  lemma ArrangedIsBuilt(e: Engine, rules: seq<BuildRule>, fits: SizeLimit, names: seq<string>, ids: seq<nat>)
    requires Built(e, rules, fits) && Permutes(ids, |rules|)
    ensures Built(Arrange(e, rules, names, ids), rules, fits)
  {
    var e' := Arrange(e, rules, names, ids);
    OrderIsLaidOut(rules, Numbering(names), true, ids, |names| + 1);
    OrderIsLaidOut(rules, Numbering(names), false, ids, |names| + 1);
    LaidOutHolds(e'.exact, rules, e'.hash, true);
    LaidOutHolds(e'.subdomain, rules, e'.hash, false);
    ReindexedIsCompiled(e, e', rules);
  }

  lemma ReindexedIsCompiled(e: Engine, e': Engine, rules: seq<BuildRule>)
    requires Compiled(e, rules) && e' == e.(hash := e'.hash, exact := e'.exact, subdomain := e'.subdomain)
    requires Holds(e'.exact, rules, e'.hash, true) && Holds(e'.subdomain, rules, e'.hash, false)
    ensures Compiled(e', rules)
  {
    forall id | 0 <= id < |rules| ensures RecordFor(e', rules[id].rule, e'.records[id]) {
      assert RecordFor(e, rules[id].rule, e.records[id]);
    }
    GroupSurvives(e, e', e.overrideScan, rules, true);
    GroupSurvives(e, e', e.blockScan, rules, false);
    HoldsIndexed(e', rules);
  }

  // ---- who comes first in an arrangement ----

  /** Names to keep apart: all suffixes, or none when collisions are allowed. */
  ghost predicate Separates(names: seq<string>, name: string, apart: bool) {
    if apart then forall s :: s in DotSuffixes(name) ==> s in names else names == []
  }

  /** The bucket that a decisive rule shares with the other decisive ones of its domain. */
  ghost function DecisiveBucket(e: Engine, rules: seq<BuildRule>, id: nat): seq<nat>
    requires ValidEngine(e) && id < |rules|
  {
    match rules[id].rule.pattern
    case Exact(d) => Bucket(e.exact, e.hash(d))
    case Subdomain(d) => Bucket(e.subdomain, e.hash(d))
    case _ => []
  }

  /** In an arrangement the first top rule of a decisive rule's bucket wins. */
  lemma DecisiveBucketDecides(rx: RegexEngine, e: Engine, rules: seq<BuildRule>, q: Query, x: nat, names: seq<string>, apart: bool)
    requires Compiled(e, rules) && WellFormed(rules) && IsAscii(q.name) && Decisive(rx, rules, q, x, apart)
    requires e.hash == Numbering(names) && Separates(names, q.name, apart)
    ensures CheckWinner(rx, e, q) == FirstTop(rx, rules, q, DecisiveBucket(e, rules, x))
    ensures x in DecisiveBucket(e, rules, x)
  {
    if ExactWinner(rx, rules, q, x) {
      ExactGoesFirst(rx, e, rules, q, x);
      ExactHitInBucket(rx, e, rules, q, x);
    } else {
      var d := rules[x].rule.pattern.domain;
      SubdomainGoesNext(rx, e, rules, q, x);
      SubdomainHitInSuffixes(rx, e, rules, q, x);
      assert HasSubdomain(rules, e.hash, e.hash(d), x);
      var bucket := Bucket(e.subdomain, e.hash(d));
      var k :| 0 <= k < |bucket| && bucket[k] == x;
      if apart {
        NumberingIsApart(names, q.name);
        SuffixesShrink(q.name);
        BucketDecides(rx, e, rules, q, DotSuffixes(q.name), d);
      } else {
        assert e.hash(DotSuffixes(q.name)[0]) == e.hash(d);
        SuffixStep(rx, e, rules, q, DotSuffixes(q.name));
      }
    }
  }

  function Only(x: nat): nat -> bool {
    id => id == x
  }

  /** A compilation in which `x` comes first in its bucket. */
  function PutFirst(e: Engine, rules: seq<BuildRule>, names: seq<string>, x: nat): Engine {
    Arrange(e, rules, names, FirstThose(Only(x), |rules|))
  }

  lemma {:induction false} OnlyOne(x: nat, n: nat)
    ensures Those(Only(x), true, n) == if x < n then [x] else []
  {
    if n > 0 {
      OnlyOne(x, n - 1);
    }
  }

  lemma DecisiveBucketIs(e: Engine, rules: seq<BuildRule>, names: seq<string>, ids: seq<nat>, x: nat)
    requires x < |rules| && (rules[x].rule.pattern.Exact? || rules[x].rule.pattern.Subdomain?)
    requires Compiled(Arrange(e, rules, names, ids), rules)
    ensures var e' := Arrange(e, rules, names, ids); var p := rules[x].rule.pattern;
            DecisiveBucket(e', rules, x) == Pick(rules, e'.hash, e'.hash(p.domain), p.Exact?, ids)
  {
    var hash, p := Numbering(names), rules[x].rule.pattern;
    IndexBelowBuckets(BucketsOf(rules, hash, p.Exact?, ids), |names| + 1, hash(p.domain));
  }

  /** In an arrangement the first top rule, in the order given, of a decisive rule's kind and hash wins. */
  lemma ArrangedDecides(rx: RegexEngine, e: Engine, rules: seq<BuildRule>, q: Query, x: nat, names: seq<string>, ids: seq<nat>, apart: bool)
    requires Compiled(Arrange(e, rules, names, ids), rules) && WellFormed(rules) && IsAscii(q.name)
    requires Decisive(rx, rules, q, x, apart) && Separates(names, q.name, apart)
    ensures var e' := Arrange(e, rules, names, ids); var p := rules[x].rule.pattern;
            && CheckWinner(rx, e', q) == FirstTop(rx, rules, q, Pick(rules, e'.hash, e'.hash(p.domain), p.Exact?, ids))
            && x in Pick(rules, e'.hash, e'.hash(p.domain), p.Exact?, ids)
  {
    DecisiveBucketDecides(rx, Arrange(e, rules, names, ids), rules, q, x, names, apart);
    DecisiveBucketIs(e, rules, names, ids, x);
  }

  lemma PutFirstIsBuilt(e: Engine, rules: seq<BuildRule>, fits: SizeLimit, names: seq<string>, x: nat)
    requires Built(e, rules, fits)
    ensures Built(PutFirst(e, rules, names, x), rules, fits)
  {
    FirstThosePermutes(Only(x), |rules|);
    ArrangedIsBuilt(e, rules, fits, names, FirstThose(Only(x), |rules|));
  }

  lemma PutFirstWins(rx: RegexEngine, e: Engine, rules: seq<BuildRule>, q: Query, x: nat, names: seq<string>, apart: bool)
    requires Compiled(PutFirst(e, rules, names, x), rules) && WellFormed(rules) && IsAscii(q.name)
    requires Decisive(rx, rules, q, x, apart) && Separates(names, q.name, apart)
    ensures CheckWinner(rx, PutFirst(e, rules, names, x), q) == Some(x)
  {
    var p, hash := rules[x].rule.pattern, Numbering(names);
    ArrangedDecides(rx, e, rules, q, x, names, FirstThose(Only(x), |rules|), apart);
    OnlyOne(x, |rules|);
    PickAppend(rules, hash, hash(p.domain), p.Exact?, [x], Those(Only(x), false, |rules|));
    assert Pick(rules, hash, hash(p.domain), p.Exact?, [x]) == [x];
  }

  /** Every decisive rule wins in some compilation. */
  lemma AnyDecisiveCanWin(rx: RegexEngine, e: Engine, rules: seq<BuildRule>, fits: SizeLimit, q: Query, x: nat, names: seq<string>, apart: bool)
    requires Built(e, rules, fits) && WellFormed(rules) && IsAscii(q.name)
    requires Decisive(rx, rules, q, x, apart) && Separates(names, q.name, apart)
    ensures Built(PutFirst(e, rules, names, x), rules, fits) && CheckWinner(rx, PutFirst(e, rules, names, x), q) == Some(x)
  {
    PutFirstIsBuilt(e, rules, fits, names, x);
    PutFirstWins(rx, e, rules, q, x, names, apart);
  }

  // ---- when compilations agree ----

  ghost predicate BlockedBy(rules: seq<BuildRule>, r: Option<nat>) {
    r.Some? && r.value < |rules| && rules[r.value].rule.action == Block
  }

  /** A block and a rewrite can both decide the query. */
  ghost predicate Mixed(rx: RegexEngine, rules: seq<BuildRule>, q: Query, apart: bool) {
    exists b: nat, r: nat ::
      && Decisive(rx, rules, q, b, apart) && rules[b].rule.action == Block
      && Decisive(rx, rules, q, r, apart) && rules[r].rule.action == Rewrite
  }

  /** Two decisive rules that act differently are a block and a rewrite. */
  lemma DifferentIsMixed(rx: RegexEngine, rules: seq<BuildRule>, q: Query, a: nat, b: nat)
    requires IsWinner(rx, rules, q, a) && IsWinner(rx, rules, q, b) && rules[a].rule.action == Block
    ensures rules[b].rule.action == Block || rules[b].rule.action == Rewrite
  {
  }

  /** What the scans decide, as a function of the scanned rules alone. */
  ghost function ScanDecision(rx: RegexEngine, fits: SizeLimit, over: Meta<BuildRule>, block: Meta<BuildRule>, q: Query, top: nat): Option<BuildRule>
    requires EvenSets(RuleGroup(fits, over, true).sets) && EvenSets(RuleGroup(fits, block, false).sets)
  {
    FirstOf(rx, q, top, RuleCandidates(rx, RuleGroup(fits, over, true), q.name, [])
                        + RuleCandidates(rx, RuleGroup(fits, block, false), q.name, QueryTokens(q.name)))
  }

  /** The first listed rule that applies with priority `top`. */
  ghost function FirstOf(rx: RegexEngine, q: Query, top: nat, brs: seq<BuildRule>): Option<BuildRule> {
    if brs == [] then None
    else if Hits(rx, brs[0].rule, q) && Priority(brs[0].rule) == top then Some(brs[0])
    else FirstOf(rx, q, top, brs[1..])
  }

  lemma {:induction false} FirstTopAsRule(rx: RegexEngine, rules: seq<BuildRule>, q: Query, w: nat, ids: seq<nat>)
    requires IsWinner(rx, rules, q, w) && forall k :: 0 <= k < |ids| ==> ids[k] < |rules|
    ensures FirstOf(rx, q, Priority(rules[w].rule), MapSeq(RuleAt(rules), ids))
            == var r := FirstTop(rx, rules, q, ids); if r.Some? then Some(rules[r.value]) else None
    decreases |ids|
  {
    if ids != [] {
      FirstTopAsRule(rx, rules, q, w, ids[1..]);
      assert MapSeq(RuleAt(rules), ids)[1..] == MapSeq(RuleAt(rules), ids[1..]);
      assert IsWinner(rx, rules, q, ids[0]) <==> Hits(rx, rules[ids[0]].rule, q) && Priority(rules[ids[0]].rule) == Priority(rules[w].rule);
    }
  }

  lemma ScansAsRules(rx: RegexEngine, e: Engine, rules: seq<BuildRule>, fits: SizeLimit, name: string)
    requires Built(e, rules, fits)
    ensures var over, block := RuleGroup(fits, ScannedRules(rules, true), true), RuleGroup(fits, ScannedRules(rules, false), false);
            && EvenSets(over.sets) && EvenSets(block.sets)
            && MapSeq(RuleAt(rules), Scans(rx, e, name))
               == RuleCandidates(rx, over, name, []) + RuleCandidates(rx, block, name, QueryTokens(name))
  {
    GroupAsRules(fits, rules, true);
    GroupAsRules(fits, rules, false);
    CandidatesAsRules(rx, e, e.overrideScan, rules, true, name, []);
    CandidatesAsRules(rx, e, e.blockScan, rules, false, name, QueryTokens(name));
    MapSeqAppend(RuleAt(rules), ScanCandidates(rx, e, e.overrideScan, name, []), ScanCandidates(rx, e, e.blockScan, name, QueryTokens(name)));
  }

  /** Without a top domain rule the winning rule depends on the scanned rules only, not on how they are compiled. */
  lemma {:induction false} ScansDecide(rx: RegexEngine, e: Engine, rules: seq<BuildRule>, fits: SizeLimit, q: Query, w: nat)
    requires Built(e, rules, fits) && WellFormed(rules) && IsAscii(q.name) && IsWinner(rx, rules, q, w)
    requires forall x: nat :: !DomainWinner(rx, rules, q, x)
    ensures EvenSets(RuleGroup(fits, ScannedRules(rules, true), true).sets) && EvenSets(RuleGroup(fits, ScannedRules(rules, false), false).sets)
    ensures CheckWinner(rx, e, q).Some? && CheckWinner(rx, e, q).value < |rules|
    ensures Some(rules[CheckWinner(rx, e, q).value])
            == ScanDecision(rx, fits, ScannedRules(rules, true), ScannedRules(rules, false), q, Priority(rules[w].rule))
  {
    ScanWinner(rx, e, rules, q, w);
    ScansAsRules(rx, e, rules, fits, q.name);
    FirstTopAsRule(rx, rules, q, w, Scans(rx, e, q.name));
  }

  /** Without a top domain rule the lookup takes the first top rule of the scans. */
  lemma {:induction false} ScanWinner(rx: RegexEngine, e: Engine, rules: seq<BuildRule>, q: Query, w: nat)
    requires Compiled(e, rules) && WellFormed(rules) && IsAscii(q.name) && IsWinner(rx, rules, q, w)
    requires forall x: nat :: !DomainWinner(rx, rules, q, x)
    ensures forall k :: 0 <= k < |Scans(rx, e, q.name)| ==> Scans(rx, e, q.name)[k] < |rules|
    ensures CheckWinner(rx, e, q) == FirstTop(rx, rules, q, Scans(rx, e, q.name))
    ensures CheckWinner(rx, e, q).Some? && CheckWinner(rx, e, q).value < |rules|
  {
    ScansGoLast(rx, e, rules, q);
    CheckDecides(rx, e, rules, q);
    ScanCandidatesValid(rx, e, e.overrideScan, q.name, []);
    ScanCandidatesValid(rx, e, e.blockScan, q.name, QueryTokens(q.name));
  }

  ghost predicate InFamily(e: Engine, rules: seq<BuildRule>, fits: SizeLimit, name: string, apart: bool) {
    Built(e, rules, fits) && (apart ==> Apart(e.hash, name))
  }

  /** Any two compilations of a list block the same unmixed queries. */
  lemma UnmixedListsAgree(rx: RegexEngine, e: Engine, e': Engine, rules: seq<BuildRule>, fits: SizeLimit, q: Query, apart: bool)
    requires InFamily(e, rules, fits, q.name, apart) && InFamily(e', rules, fits, q.name, apart)
    requires WellFormed(rules) && IsAscii(q.name) && !Mixed(rx, rules, q, apart)
    ensures BlockedBy(rules, CheckWinner(rx, e, q)) == BlockedBy(rules, CheckWinner(rx, e', q))
  {
    var r, r' := CheckWinner(rx, e, q), CheckWinner(rx, e', q);
    CheckDecides(rx, e, rules, q);
    CheckDecides(rx, e', rules, q);
    if x: nat :| DomainWinner(rx, rules, q, x) {
      WinnerIsDecisive(rx, e, rules, q, x, apart);
      WinnerIsDecisive(rx, e', rules, q, x, apart);
      if BlockedBy(rules, r) {
        DifferentIsMixed(rx, rules, q, r.value, r'.value);
      } else if BlockedBy(rules, r') {
        DifferentIsMixed(rx, rules, q, r'.value, r.value);
      }
    } else if r.Some? {
      ScansDecide(rx, e, rules, fits, q, r.value);
      ScansDecide(rx, e', rules, fits, q, r.value);
    }
  }

  /** All compilations of the list agree on whether the query is blocked. */
  ghost predicate AllCompilationsAgree(rx: RegexEngine, rules: seq<BuildRule>, fits: SizeLimit, q: Query, apart: bool) {
    forall e, e' | InFamily(e, rules, fits, q.name, apart) && InFamily(e', rules, fits, q.name, apart) ::
      BlockedBy(rules, CheckWinner(rx, e, q)) == BlockedBy(rules, CheckWinner(rx, e', q))
  }

  /** What to number so as to keep the suffixes of a name apart, or not. */
  function NamesFor(name: string, apart: bool): (names: seq<string>)
    ensures Separates(names, name, apart)
  {
    if apart then DotSuffixes(name) else []
  }

  lemma PutFirstInFamily(rx: RegexEngine, e: Engine, rules: seq<BuildRule>, fits: SizeLimit, q: Query, x: nat, apart: bool) returns (e': Engine)
    requires Built(e, rules, fits) && WellFormed(rules) && IsAscii(q.name) && Decisive(rx, rules, q, x, apart)
    ensures InFamily(e', rules, fits, q.name, apart) && CheckWinner(rx, e', q) == Some(x)
  {
    var names := NamesFor(q.name, apart);
    AnyDecisiveCanWin(rx, e, rules, fits, q, x, names, apart);
    if apart {
      NumberingIsApart(names, q.name);
    }
    e' := PutFirst(e, rules, names, x);
  }

  /**
   Whether a query is blocked is a property of the rule list alone if and only if
   no block and rewrite can both decide it: with collisions a tie within the class
   met first, without them a tie at the longest domain.
   */
  lemma CompilationsAgreeIff(rx: RegexEngine, e: Engine, rules: seq<BuildRule>, fits: SizeLimit, q: Query, apart: bool)
    requires Built(e, rules, fits) && WellFormed(rules) && IsAscii(q.name)
    ensures AllCompilationsAgree(rx, rules, fits, q, apart) <==> !Mixed(rx, rules, q, apart)
  {
    if Mixed(rx, rules, q, apart) {
      MixedDisagree(rx, e, rules, fits, q, apart);
    } else {
      UnmixedAgree(rx, rules, fits, q, apart);
    }
  }

  lemma MixedDisagree(rx: RegexEngine, e: Engine, rules: seq<BuildRule>, fits: SizeLimit, q: Query, apart: bool)
    requires Built(e, rules, fits) && WellFormed(rules) && IsAscii(q.name) && Mixed(rx, rules, q, apart)
    ensures !AllCompilationsAgree(rx, rules, fits, q, apart)
  {
    var b: nat, r: nat :|
      && Decisive(rx, rules, q, b, apart) && rules[b].rule.action == Block
      && Decisive(rx, rules, q, r, apart) && rules[r].rule.action == Rewrite;
    var e1 := PutFirstInFamily(rx, e, rules, fits, q, b, apart);
    var e2 := PutFirstInFamily(rx, e, rules, fits, q, r, apart);
    assert BlockedBy(rules, CheckWinner(rx, e1, q)) && !BlockedBy(rules, CheckWinner(rx, e2, q));
  }

  lemma UnmixedAgree(rx: RegexEngine, rules: seq<BuildRule>, fits: SizeLimit, q: Query, apart: bool)
    requires WellFormed(rules) && IsAscii(q.name) && !Mixed(rx, rules, q, apart)
    ensures AllCompilationsAgree(rx, rules, fits, q, apart)
  {
    forall e1, e2 | InFamily(e1, rules, fits, q.name, apart) && InFamily(e2, rules, fits, q.name, apart)
      ensures BlockedBy(rules, CheckWinner(rx, e1, q)) == BlockedBy(rules, CheckWinner(rx, e2, q))
    {
      UnmixedListsAgree(rx, e1, e2, rules, fits, q, apart);
    }
  }
}
