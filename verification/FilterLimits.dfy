/** Inputs the compiled filter treats otherwise than the rules say, down to the outcome of the lookup. */
module FilterLimits {
  import opened Wrappers
  import opened Domains
  import opened Tokens
  import opened Globs
  import opened Rules
  import opened FilterEngine
  import opened FilterCorrect
  import opened ScanOrder
  import FilterBuild

  // ---- a folded letter next to a token ----

  lemma NoExactCandidates(e: Engine, rules: seq<BuildRule>, h: int)
    requires Compiled(e, rules) && forall id :: 0 <= id < |rules| ==> !rules[id].rule.pattern.Exact?
    ensures Bucket(e.exact, h) == []
  {
    if Bucket(e.exact, h) != [] {
      assert HasExact(rules, e.hash, h, Bucket(e.exact, h)[0]) by {
        assert Bucket(e.exact, h)[0] in Bucket(e.exact, h);
      }
    }
  }

  lemma {:induction false} NoSuffixCandidates(e: Engine, rules: seq<BuildRule>, suffixes: seq<string>)
    requires Compiled(e, rules) && forall id :: 0 <= id < |rules| ==> !rules[id].rule.pattern.Subdomain?
    ensures SuffixHits(e, suffixes) == []
    decreases |suffixes|
  {
    if suffixes != [] {
      NoSuffixCandidates(e, rules, suffixes[1..]);
      var bucket := Bucket(e.subdomain, e.hash(suffixes[0]));
      if bucket != [] {
        assert HasSubdomain(rules, e.hash, e.hash(suffixes[0]), bucket[0]) by {
          assert bucket[0] in bucket;
        }
      }
    }
  }

  lemma {:induction false} NoFiledCandidates(rx: RegexEngine, e: Engine, g: ScanGroup, tokens: seq<Token>, name: string)
    requires ValidEngine(e) && ValidGroup(e, g) && forall t :: t in tokens ==> t !in g.index
    ensures TokenHits(rx, e, g, tokens, name) == []
    decreases |tokens|
  {
    if tokens != [] {
      NoFiledCandidates(rx, e, g, tokens[1..], name);
    }
  }

  /** One plain wildcard block with one token is filed under it, and nowhere else. */
  lemma OneFiledRule(fits: SizeLimit, br: BuildRule, t: Token)
    requires Scanned(br, false) && br.indexTokens == [t]
    ensures GroupOfRules(fits, [br], false) == ScanGroup(map[t := [0]], [], [])
    ensures GroupOfRules(fits, [br], true) == ScanGroup(map[], [], [])
  {
    var rules := [br];
    var meta: Meta<nat> := [(0, [t])];
    assert MetaFirst(rules, false, 0) == [] && MetaFirst(rules, false, 1) == meta;
    assert MetaFirst(rules, true, 0) == [] && MetaFirst(rules, true, 1) == [];
    assert [t][..0] == [];
    assert Rarest(meta, [t]) == Some(t);
    assert IndexFirst(meta, 0) == map[];
    assert [] + [0] == [0];
    assert IndexFirst(meta, 1) == map[t := [0]];
    assert FallbackFirst(meta, 0, true) == [] && FallbackFirst(meta, 1, true) == [];
  }

  lemma {:induction false} FiledRuleMissed(rx: RegexEngine, e: Engine, fits: SizeLimit, br: BuildRule, q: Query, t: Token)
    requires Built(e, [br], fits) && Scanned(br, false) && br.indexTokens == [t] && !IsQueryToken(q.name, t)
    ensures CheckWinner(rx, e, q) == None
  {
    OneFiledRule(fits, br, t);
    NothingFirst(rx, e, br, q.name);
    NothingScanned(rx, e, q.name, t);
  }

  lemma {:induction false} NothingFirst(rx: RegexEngine, e: Engine, br: BuildRule, name: string)
    requires Compiled(e, [br]) && IsScanPattern(br.rule.pattern) && e.overrideScan == ScanGroup(map[], [], [])
    ensures FirstPhase(rx, e, name) == []
  {
    NoExactCandidates(e, [br], e.hash(name));
    NoSuffixCandidates(e, [br], DotSuffixes(name));
    NoFiledCandidates(rx, e, e.overrideScan, [], name);
  }

  lemma {:induction false} NothingScanned(rx: RegexEngine, e: Engine, name: string, t: Token)
    requires ValidEngine(e) && e.blockScan == ScanGroup(map[t := [0]], [], []) && !IsQueryToken(name, t)
    ensures BlockPhase(rx, e, name) == []
  {
    QueryTokensAreRuns(name);
    NoFiledCandidates(rx, e, e.blockScan, QueryTokens(name), name);
  }

  // ---- filed under one token, found through that token ----

  /** The token a scanned block is filed under. */
  function FiledToken(rules: seq<BuildRule>, id: nat): Option<Token>
    requires id < |rules|
  {
    Rarest(MetaFirst(rules, false, |rules|), rules[id].indexTokens)
  }

  lemma {:induction false} IndexedIff(meta: Meta<nat>, n: nat, t: Token, id: nat)
    requires n <= |meta|
    ensures FilterBuild.InIndex(IndexFirst(meta, n), id, t) <==> exists k :: 0 <= k < n && meta[k].0 == id && Rarest(meta, meta[k].1) == Some(t)
  {
    if n > 0 {
      IndexedIff(meta, n - 1, t, id);
    }
  }

  lemma {:induction false} LeftOverIff(meta: Meta<nat>, n: nat, id: nat)
    requires n <= |meta|
    ensures id in FallbackFirst(meta, n, true) <==> exists k :: 0 <= k < n && meta[k].0 == id && meta[k].1 == []
  {
    if n > 0 {
      LeftOverIff(meta, n - 1, id);
    }
  }

  lemma {:induction false} ListedOnce(rules: seq<BuildRule>, n: nat, id: nat)
    requires n <= |rules|
    ensures forall k :: 0 <= k < |MetaFirst(rules, false, n)| ==>
              var m := MetaFirst(rules, false, n)[k]; m.0 < n && m.1 == rules[m.0].indexTokens
    ensures id < n && Scanned(rules[id], false) ==>
              exists k :: 0 <= k < |MetaFirst(rules, false, n)| && MetaFirst(rules, false, n)[k].0 == id
  {
    if n > 0 {
      ListedOnce(rules, n - 1, id);
      var front, own := MetaFirst(rules, false, n - 1), if Scanned(rules[n - 1], false) then [(n - 1, rules[n - 1].indexTokens)] else [];
      assert MetaFirst(rules, false, n) == front + own;
      if id < n - 1 && Scanned(rules[id], false) {
        var k :| 0 <= k < |front| && front[k].0 == id;
        assert (front + own)[k].0 == id;
      } else if id == n - 1 && Scanned(rules[id], false) {
        assert (front + own)[|front|].0 == id;
      }
    }
  }

  /** A scanned block with tokens is in the index under the one it is filed under, and nowhere else in its group. */
  lemma FiledOnce(rules: seq<BuildRule>, fits: SizeLimit, id: nat, t: Token)
    requires id < |rules| && Scanned(rules[id], false) && rules[id].indexTokens != []
    ensures var g := GroupOfRules(fits, rules, false);
            && !FilterBuild.InSomeSet(g.sets, id) && id !in g.individual
            && (FilterBuild.InIndex(g.index, id, t) <==> FiledToken(rules, id) == Some(t))
  {
    var meta := MetaFirst(rules, false, |rules|);
    var fallback := FallbackFirst(meta, |meta|, true);
    ListedOnce(rules, |rules|, id);
    IndexedIff(meta, |meta|, t, id);
    LeftOverIff(meta, |meta|, id);
    FilterBuild.FallbackIsComplete(fits, fallback, ProgramAt(rules), id);
  }

  /**
   In any list, whatever its patterns fold, the scan comes to a matching block with
   tokens if and only if the name emits the token the block is filed under.
   */
  lemma FiledRuleReachedIff(rx: RegexEngine, e: Engine, rules: seq<BuildRule>, fits: SizeLimit, name: string, id: nat)
    requires Built(e, rules, fits) && id < |rules| && Scanned(rules[id], false) && rules[id].indexTokens != []
    requires PatternMatches(rx, rules[id].rule.pattern, name)
    ensures id in BlockPhase(rx, e, name) <==> IsQueryToken(name, FiledToken(rules, id).value)
  {
    var g, t := e.blockScan, FiledToken(rules, id).value;
    ScannedMatches(rx, e, rules, id, name);
    NotInSets(rx, fits, rules, name, id);
    MatchingIdsIn(rx, e, g.individual, name, id);
    TokenHitsIn(rx, e, g, QueryTokens(name), name, id);
    QueryTokensAreRuns(name);
    FiledOnce(rules, fits, id, t);
    forall u | u in g.index && id in g.index[u] ensures u == t {
      FiledOnce(rules, fits, id, u);
      assert FilterBuild.InIndex(g.index, id, u);
    }
    assert FilterBuild.InIndex(g.index, id, t);
  }

  lemma NotInSets(rx: RegexEngine, fits: SizeLimit, rules: seq<BuildRule>, name: string, id: nat)
    requires id < |rules| && Scanned(rules[id], false) && rules[id].indexTokens != [] && EvenSets(GroupOfRules(fits, rules, false).sets)
    ensures id !in AllSetHits(rx, GroupOfRules(fits, rules, false).sets, name)
  {
    var sets := GroupOfRules(fits, rules, false).sets;
    FiledOnce(rules, fits, id, FiledToken(rules, id).value);
    AllSetHitsIn(rx, sets, name, id);
    if s :| s in sets && id in SetHits(rx, s.programs, s.ids, name) {
      SetHitsIn(rx, s.programs, s.ids, name, id);
    }
  }

  /** On its own such a block is found for a query it applies to if and only if the name emits its token. */
  lemma {:induction false} FiledRuleFoundIff(rx: RegexEngine, e: Engine, fits: SizeLimit, br: BuildRule, q: Query, t: Token)
    requires Built(e, [br], fits) && Scanned(br, false) && br.indexTokens == [t] && Hits(rx, br.rule, q)
    ensures CheckWinner(rx, e, q) == Some(0) <==> IsQueryToken(q.name, t)
  {
    if IsQueryToken(q.name, t) {
      OneFiledRule(fits, br, t);
      assert [t][..0] == [];
      assert FiledToken([br], 0) == Some(t);
      FiledRuleReachedIff(rx, e, [br], fits, q.name, 0);
      OnlyRuleWins(rx, e, br, q);
    } else {
      FiledRuleMissed(rx, e, fits, br, q, t);
    }
  }

  lemma OnlyRuleWins(rx: RegexEngine, e: Engine, br: BuildRule, q: Query)
    requires Compiled(e, [br]) && IsScanPattern(br.rule.pattern) && Hits(rx, br.rule, q) && 0 in BlockPhase(rx, e, q.name)
    ensures CheckWinner(rx, e, q) == Some(0)
  {
    assert RecordFor(e, [br][0].rule, e.records[0]);
    ConsiderPicksBest(e, FirstPhase(rx, e, q.name), q, None);
    ConsiderPicksBest(e, BlockPhase(rx, e, q.name), q, None);
  }

  /** The rule the parser makes of the Kelvin pattern. */
  function KelvinRule(): BuildRule {
    BuildRule(Rule("Kelvin", Block, Wildcard(KELVIN_GLOB), None, 1), "Kelvin", [FastHash(KELVIN_GLOB.body[3..6])])
  }

  lemma KelvinRuleIsParsed()
    ensures ParserTokens(KelvinRule())
  {
    forall h ensures h in KelvinRule().indexTokens <==> IsSafeToken(Lower(KELVIN_GLOB.body), h) {
      KelvinSafeToken(h, KELVIN_GLOB.body[3..6]);
    }
  }

  /** The rule applies to `a.kads.net`, and every compilation misses it. */
  lemma {:induction false} KelvinRuleMissed(rx: RegexEngine, e: Engine, fits: SizeLimit, client: ClientInfo)
    requires Built(e, [KelvinRule()], fits)
    ensures ParserTokens(KelvinRule()) && Hits(rx, KelvinRule().rule, Query("a.kads.net", "A", client))
    ensures CheckWinner(rx, e, Query("a.kads.net", "A", client)) == None
  {
    var run := KELVIN_GLOB.body[3..6];
    KelvinRuleIsParsed();
    FoldingDefeatsPrefilter(run);
    FiledRuleMissed(rx, e, fits, KelvinRule(), Query("a.kads.net", "A", client), FastHash(run));
  }

  // ---- a domain too long for its length byte ----

  /** What of a domain is stored. */
  function Cut(d: string): string {
    d[..|d| % 256]
  }

  /** The lookup takes an exact rule for a name if the hashes agree and the name is what was stored. */
  ghost predicate Taken(rx: RegexEngine, e: Engine, q: Query, id: nat)
    requires ValidEngine(e)
  {
    id < |e.records| && id in FirstPhase(rx, e, q.name) && Passes(e, id, q)
  }

  lemma {:induction false} ExactRuleTakenIff(rx: RegexEngine, e: Engine, rules: seq<BuildRule>, q: Query, id: nat)
    requires Compiled(e, rules) && id < |rules| && rules[id].rule.pattern.Exact?
    ensures var d := rules[id].rule.pattern.domain;
            Taken(rx, e, q, id) <==> e.hash(q.name) == e.hash(d) && q.name == Cut(d) && ModsApply(rules[id].rule.action, rules[id].rule.mods, q)
  {
    assert RecordFor(e, rules[id].rule, e.records[id]);
    assert id in Bucket(e.exact, e.hash(q.name)) <==> HasExact(rules, e.hash, e.hash(q.name), id);
    if id in SuffixHits(e, DotSuffixes(q.name)) {
      SuffixHitsIn(e, rules, DotSuffixes(q.name), id);
    }
    if id in ScanCandidates(rx, e, e.overrideScan, q.name, []) {
      NotScanned(rx, e, rules, q.name, id);
    }
  }

  lemma NotScanned(rx: RegexEngine, e: Engine, rules: seq<BuildRule>, name: string, id: nat)
    requires Compiled(e, rules) && id in ScanCandidates(rx, e, e.overrideScan, name, [])
    ensures InGroup(rules, true, id)
  {
    var g := e.overrideScan;
    AllSetHitsIn(rx, g.sets, name, id);
    MatchingIdsIn(rx, e, g.individual, name, id);
    TokenHitsIn(rx, e, g, [], name, id);
    if s :| s in g.sets && id in SetHits(rx, s.programs, s.ids, name) {
      SetHitsIn(rx, s.programs, s.ids, name, id);
    }
  }

  /**
   An exact rule is taken exactly when it applies, if and only if its domain fits
   the length byte, or its modifiers exclude the query, or the name is neither the
   domain nor the stored part of it under a hash collision.
   */
  lemma {:induction false} ExactRuleRightIff(rx: RegexEngine, e: Engine, rules: seq<BuildRule>, q: Query, id: nat)
    requires Compiled(e, rules) && id < |rules| && rules[id].rule.pattern.Exact?
    ensures var d := rules[id].rule.pattern.domain;
            (Taken(rx, e, q, id) <==> Hits(rx, rules[id].rule, q)) <==>
            || |d| <= 255
            || !ModsApply(rules[id].rule.action, rules[id].rule.mods, q)
            || (q.name != d && !(e.hash(q.name) == e.hash(d) && q.name == Cut(d)))
  {
    ExactRuleTakenIff(rx, e, rules, q, id);
    var d := rules[id].rule.pattern.domain;
    if |d| <= 255 {
      assert Cut(d) == d;
    } else {
      assert |Cut(d)| < |d|;
    }
  }

  /** A hosts line for a name of 256 characters. */
  function LongHost(): string {
    seq(256, _ => 'a')
  }

  /** A list of that one line never blocks the name it was written for. */
  lemma {:induction false} LongHostMissed(rx: RegexEngine, e: Engine, rules: seq<BuildRule>, client: ClientInfo)
    requires Compiled(e, rules) && |rules| == 1 && rules[0].rule == Rule("0.0.0.0 a...", Block, Exact(LongHost()), None, 1)
    ensures var q := Query(LongHost(), "A", client); Hits(rx, rules[0].rule, q) && CheckWinner(rx, e, q) == None
  {
    var q := Query(LongHost(), "A", client);
    ExactRuleTakenIff(rx, e, rules, q, 0);
    assert |Cut(LongHost())| == 0;
    OnlyTakenWins(rx, e, rules, q);
  }

  lemma {:induction false} OnlyTakenWins(rx: RegexEngine, e: Engine, rules: seq<BuildRule>, q: Query)
    requires Compiled(e, rules) && |rules| == 1 && rules[0].rule.pattern.Exact? && !Taken(rx, e, q, 0)
    ensures CheckWinner(rx, e, q) == None
  {
    var first := FirstPhase(rx, e, q.name);
    ConsiderPicksBest(e, first, q, None);
    NoBlockScan(rx, e, rules, q.name);
    assert forall k :: 0 <= k < |first| ==> first[k] == 0;
  }

  lemma NoBlockScan(rx: RegexEngine, e: Engine, rules: seq<BuildRule>, name: string)
    requires Compiled(e, rules) && |rules| == 1 && rules[0].rule.pattern.Exact?
    ensures BlockPhase(rx, e, name) == []
  {
    var second := BlockPhase(rx, e, name);
    if second != [] {
      BlockIsScanned(rx, e, rules, name, second[0]);
    }
  }

  lemma BlockIsScanned(rx: RegexEngine, e: Engine, rules: seq<BuildRule>, name: string, id: nat)
    requires Compiled(e, rules) && id in BlockPhase(rx, e, name)
    ensures InGroup(rules, false, id)
  {
    var g := e.blockScan;
    AllSetHitsIn(rx, g.sets, name, id);
    MatchingIdsIn(rx, e, g.individual, name, id);
    TokenHitsIn(rx, e, g, QueryTokens(name), name, id);
    if s :| s in g.sets && id in SetHits(rx, s.programs, s.ids, name) {
      SetHitsIn(rx, s.programs, s.ids, name, id);
    }
  }
}
