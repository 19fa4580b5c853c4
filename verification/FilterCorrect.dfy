/**
 The compiled lookup agrees with a linear scan over the rules, for every domain
 hash function, every order inside a hash bucket, and every regex engine.
 */
module FilterCorrect {
  import opened Wrappers
  import opened Domains
  import opened Tokens
  import opened Globs
  import opened Rules
  import opened FilterEngine

  /** The record keeps the rule; the domain length is cast to eight bits. */
  ghost predicate RecordFor(e: Engine, r: Rule, rec: RuleRecord) {
    && ValidRecord(e, rec)
    && rec.action == r.action && ModsOf(e, rec) == r.mods && rec.listId == r.listId
    && match r.pattern
       case Exact(d) => rec.kind == EXACT && StoredDomain(e, rec) == d[..|d| % 256]
       case Subdomain(d) => rec.kind == SUBDOMAIN && StoredDomain(e, rec) == d[..|d| % 256]
       case Wildcard(_) => rec.kind == WILDCARD && e.programs[rec.domOrRe] == ProgramOf(r.pattern)
       case Regex(_) => rec.kind == REGEX && e.programs[rec.domOrRe] == ProgramOf(r.pattern)
  }

  ghost predicate InGroup(rules: seq<BuildRule>, overriding: bool, id: nat) {
    id < |rules| && IsScanPattern(rules[id].rule.pattern) && OverrideCapable(rules[id].rule) == overriding
  }

  /** The group can produce the rule: through a set, alone, or under one of its tokens. */
  ghost predicate Reached(g: ScanGroup, rules: seq<BuildRule>, id: nat)
    requires id < |rules|
  {
    || (exists s :: s in g.sets && id in s.ids)
    || id in g.individual
    || (exists t :: t in rules[id].indexTokens && t in g.index && id in g.index[t])
  }

  ghost predicate GroupFor(e: Engine, g: ScanGroup, rules: seq<BuildRule>, overriding: bool) {
    && ValidGroup(e, g)
    && (forall s :: s in g.sets ==> SetFor(s, rules, overriding))
    && (forall id :: id in g.individual ==> InGroup(rules, overriding, id))
    && (forall t, id :: t in g.index && id in g.index[t] ==> InGroup(rules, overriding, id) && t in rules[id].indexTokens)
    && (forall id :: InGroup(rules, overriding, id) ==> Reached(g, rules, id))
  }

  ghost predicate SetFor(s: RegexSet, rules: seq<BuildRule>, overriding: bool) {
    && |s.programs| == |s.ids|
    && forall k :: 0 <= k < |s.ids| ==>
         InGroup(rules, overriding, s.ids[k]) && s.programs[k] == ProgramOf(rules[s.ids[k]].rule.pattern)
  }

  ghost predicate HasExact(rules: seq<BuildRule>, hash: string -> int, h: int, id: nat) {
    id < |rules| && rules[id].rule.pattern.Exact? && hash(rules[id].rule.pattern.domain) == h
  }

  ghost predicate HasSubdomain(rules: seq<BuildRule>, hash: string -> int, h: int, id: nat) {
    id < |rules| && rules[id].rule.pattern.Subdomain? && hash(rules[id].rule.pattern.domain) == h
  }

  /** What `from_rules` promises about the engine it returns. */
  ghost predicate Compiled(e: Engine, rules: seq<BuildRule>) {
    && ValidEngine(e)
    && |e.records| == |rules|
    && (forall id :: 0 <= id < |rules| ==> RecordFor(e, rules[id].rule, e.records[id]))
    && (forall h, id :: id in Bucket(e.exact, h) <==> HasExact(rules, e.hash, h, id))
    && (forall h, id :: id in Bucket(e.subdomain, h) <==> HasSubdomain(rules, e.hash, h, id))
    && GroupFor(e, e.overrideScan, rules, true) && e.overrideScan.index == map[]
    && GroupFor(e, e.blockScan, rules, false)
    && (e.clientDependent <==> exists id :: 0 <= id < |rules| && DependsOnClient(rules[id].rule))
  }

  /** The tokens a rule carries are the ones its parser computes for its pattern. */
  ghost predicate ParserTokens(br: BuildRule) {
    match br.rule.pattern
    case Wildcard(g) => forall h :: h in br.indexTokens <==> IsSafeToken(Lower(g.body), h)
    case _ => br.indexTokens == []
  }

  /** Domains fit their length byte, and no body folds next to a safe token. */
  ghost predicate Representable(br: BuildRule) {
    match br.rule.pattern
    case Exact(d) => |d| <= 255
    case Subdomain(d) => |d| <= 255
    case Wildcard(g) => FoldSafe(g.body)
    case Regex(_) => true
  }

  ghost predicate WellFormed(rules: seq<BuildRule>) {
    forall id :: 0 <= id < |rules| ==> ParserTokens(rules[id]) && Representable(rules[id])
  }

  lemma PassesMeansHits(rx: RegexEngine, e: Engine, rules: seq<BuildRule>, id: nat, q: Query)
    requires Compiled(e, rules) && WellFormed(rules) && id < |rules|
    ensures Passes(e, id, q) ==>
              (Hits(rx, rules[id].rule, q) <==> (IsScanPattern(rules[id].rule.pattern) ==> PatternMatches(rx, rules[id].rule.pattern, q.name)))
    ensures Hits(rx, rules[id].rule, q) ==> Passes(e, id, q)
    ensures IdPriority(e, id) == Priority(rules[id].rule)
  {
    var r, rec := rules[id].rule, e.records[id];
    assert RecordFor(e, r, rec) && Representable(rules[id]);
    if r.pattern.Exact? || r.pattern.Subdomain? {
      var d := r.pattern.domain;
      assert d[..|d| % 256] == d;
    }
  }

  /** Domain candidates: exactly the indexed rules, plus hash collisions the re-check rejects. */
  lemma DomainCandidatesComplete(rx: RegexEngine, e: Engine, rules: seq<BuildRule>, id: nat, q: Query)
    requires Compiled(e, rules) && id < |rules|
    ensures !IsScanPattern(rules[id].rule.pattern) && PatternMatches(rx, rules[id].rule.pattern, q.name)
            ==> id in DomainCandidates(e, q.name)
    ensures id in DomainCandidates(e, q.name) ==> !IsScanPattern(rules[id].rule.pattern)
  {
    SuffixHitsIn(e, rules, DotSuffixes(q.name), id);
    assert id in Bucket(e.exact, e.hash(q.name)) <==> HasExact(rules, e.hash, e.hash(q.name), id);
    if rules[id].rule.pattern.Subdomain? {
      SuffixWalkIsSubdomain(q.name, rules[id].rule.pattern.domain);
    }
  }

  lemma {:induction false} SuffixHitsIn(e: Engine, rules: seq<BuildRule>, suffixes: seq<string>, id: nat)
    requires Compiled(e, rules) && id < |rules|
    ensures rules[id].rule.pattern.Subdomain? && rules[id].rule.pattern.domain in suffixes ==> id in SuffixHits(e, suffixes)
    ensures id in SuffixHits(e, suffixes) ==> rules[id].rule.pattern.Subdomain?
  {
    if suffixes != [] {
      SuffixHitsIn(e, rules, suffixes[1..], id);
      var h := e.hash(suffixes[0]);
      assert id in Bucket(e.subdomain, h) <==> HasSubdomain(rules, e.hash, h, id);
    }
  }

  /** The token a rule is filed under is emitted for every name the rule matches. */
  lemma FiledTokenEmitted(rx: RegexEngine, br: BuildRule, t: Token, name: string)
    requires ParserTokens(br) && Representable(br) && t in br.indexTokens && IsAscii(name)
    requires PatternMatches(rx, br.rule.pattern, name)
    ensures IsQueryToken(name, t)
  {
    match br.rule.pattern
    case Wildcard(g) => PrefilterIsSound(g, name, t);
    case _ =>
  }

  lemma SetYields(rx: RegexEngine, s: RegexSet, rules: seq<BuildRule>, overriding: bool, id: nat, name: string)
    requires SetFor(s, rules, overriding)
    ensures id in SetHits(rx, s.programs, s.ids, name) <==>
            id in s.ids && InGroup(rules, overriding, id) && PatternMatches(rx, rules[id].rule.pattern, name)
  {
    SetHitsIn(rx, s.programs, s.ids, name, id);
    if id in s.ids {
      var k :| 0 <= k < |s.ids| && s.ids[k] == id;
      assert IsMatch(rx, s.programs[k], name) <==> PatternMatches(rx, rules[id].rule.pattern, name);
    }
  }

  /** Scanning a group through its sets and tokens is scanning all its rules. */
  lemma ScanIsExhaustive(rx: RegexEngine, e: Engine, g: ScanGroup, rules: seq<BuildRule>, overriding: bool,
                         name: string, tokens: seq<Token>, id: nat)
    requires Compiled(e, rules) && WellFormed(rules) && GroupFor(e, g, rules, overriding) && IsAscii(name)
    requires g.index == map[] || forall h :: IsQueryToken(name, h) ==> h in tokens
    ensures id in ScanCandidates(rx, e, g, name, tokens) <==>
            InGroup(rules, overriding, id) && PatternMatches(rx, rules[id].rule.pattern, name)
  {
    AllSetHitsIn(rx, g.sets, name, id);
    MatchingIdsIn(rx, e, g.individual, name, id);
    TokenHitsIn(rx, e, g, tokens, name, id);
    if id < |rules| {
      ScannedMatches(rx, e, rules, id, name);
    }
    if s :| s in g.sets && id in SetHits(rx, s.programs, s.ids, name) {
      SetYields(rx, s, rules, overriding, id, name);
    }
    if InGroup(rules, overriding, id) && PatternMatches(rx, rules[id].rule.pattern, name) {
      ReachedIsYielded(rx, g, rules, overriding, name, tokens, id);
    }
  }

  lemma ScannedMatches(rx: RegexEngine, e: Engine, rules: seq<BuildRule>, id: nat, name: string)
    requires Compiled(e, rules) && id < |rules|
    ensures IsScanPattern(rules[id].rule.pattern) ==>
              (ScanRuleMatches(rx, e, id, name) <==> PatternMatches(rx, rules[id].rule.pattern, name))
  {
    assert RecordFor(e, rules[id].rule, e.records[id]);
  }

  /** A matching rule the group can produce comes out of a set, stands alone, or is filed under an emitted token. */
  lemma ReachedIsYielded(rx: RegexEngine, g: ScanGroup, rules: seq<BuildRule>, overriding: bool, name: string, tokens: seq<Token>, id: nat)
    requires WellFormed(rules) && InGroup(rules, overriding, id) && Reached(g, rules, id) && IsAscii(name)
    requires EvenSets(g.sets) && forall s :: s in g.sets ==> SetFor(s, rules, overriding)
    requires g.index == map[] || forall h :: IsQueryToken(name, h) ==> h in tokens
    requires PatternMatches(rx, rules[id].rule.pattern, name)
    ensures || (exists s :: s in g.sets && id in SetHits(rx, s.programs, s.ids, name))
            || id in g.individual
            || (exists t :: t in tokens && t in g.index && id in g.index[t])
  {
    if s :| s in g.sets && id in s.ids {
      SetYields(rx, s, rules, overriding, id, name);
    } else if id !in g.individual {
      var t :| t in rules[id].indexTokens && t in g.index && id in g.index[t];
      FiledTokenEmitted(rx, rules[id], t, name);
      assert t in tokens;
    }
  }

  lemma FirstPhaseSplits(rx: RegexEngine, e: Engine, name: string, id: nat)
    requires ValidEngine(e)
    ensures id in FirstPhase(rx, e, name) <==>
            id in DomainCandidates(e, name) || id in ScanCandidates(rx, e, e.overrideScan, name, [])
  {
  }

  /** What the first phase leaves to the block scan: plain scan blocks of priority one. */
  lemma FirstPhaseCovers(rx: RegexEngine, e: Engine, rules: seq<BuildRule>, q: Query, id: nat)
    requires Compiled(e, rules) && WellFormed(rules) && IsAscii(q.name) && id < |rules|
    ensures (id in FirstPhase(rx, e, q.name) && Passes(e, id, q)) <==>
            (Hits(rx, rules[id].rule, q) && !InGroup(rules, false, id))
  {
    PassesMeansHits(rx, e, rules, id, q);
    FirstPhaseSplits(rx, e, q.name, id);
    DomainCandidatesComplete(rx, e, rules, id, q);
    ScanIsExhaustive(rx, e, e.overrideScan, rules, true, q.name, [], id);
  }

  lemma BlockScanCovers(rx: RegexEngine, e: Engine, rules: seq<BuildRule>, q: Query, id: nat)
    requires Compiled(e, rules) && WellFormed(rules) && IsAscii(q.name) && id < |rules|
    ensures (id in BlockPhase(rx, e, q.name) && Passes(e, id, q)) <==>
            (Hits(rx, rules[id].rule, q) && InGroup(rules, false, id))
  {
    PassesMeansHits(rx, e, rules, id, q);
    forall h | IsQueryToken(q.name, h) ensures h in QueryTokens(q.name) {
      TokensBeforeAreRuns(q.name, |q.name| + 1, h);
    }
    ScanIsExhaustive(rx, e, e.blockScan, rules, false, q.name, QueryTokens(q.name), id);
  }

  /** An answer of the lookup: nothing hits, or the answer ranks highest among the hits. */
  ghost predicate Decides(rx: RegexEngine, rules: seq<BuildRule>, q: Query, r: Option<nat>) {
    match r
    case None => forall k :: 0 <= k < |rules| ==> !Hits(rx, rules[k].rule, q)
    case Some(id) => IsWinner(rx, rules, q, id)
  }

  /** If the first phase finds a winner, no rule of the skipped block scan outranks it. */
  lemma FirstPhaseDecides(rx: RegexEngine, e: Engine, rules: seq<BuildRule>, q: Query, best: Option<nat>)
    requires Compiled(e, rules) && WellFormed(rules) && IsAscii(q.name)
    requires best == Consider(e, FirstPhase(rx, e, q.name), q, None)
    ensures best.Some? ==> IsWinner(rx, rules, q, best.value)
    ensures best.None? ==> forall k :: 0 <= k < |rules| && Hits(rx, rules[k].rule, q) ==> InGroup(rules, false, k)
  {
    ConsiderPicksBest(e, FirstPhase(rx, e, q.name), q, None);
    forall k | 0 <= k < |rules|
      ensures IdPriority(e, k) == Priority(rules[k].rule) >= 1
      ensures (k in FirstPhase(rx, e, q.name) && Passes(e, k, q)) <==>
              (Hits(rx, rules[k].rule, q) && !InGroup(rules, false, k))
      ensures InGroup(rules, false, k) ==> Priority(rules[k].rule) == 1
    {
      FirstPhaseCovers(rx, e, rules, q, k);
      PassesMeansHits(rx, e, rules, k, q);
      OverridePriority(rules[k].rule);
    }
  }

  lemma BlockScanDecides(rx: RegexEngine, e: Engine, rules: seq<BuildRule>, q: Query, best: Option<nat>)
    requires Compiled(e, rules) && WellFormed(rules) && IsAscii(q.name)
    requires forall k :: 0 <= k < |rules| && Hits(rx, rules[k].rule, q) ==> InGroup(rules, false, k)
    requires best == Consider(e, BlockPhase(rx, e, q.name), q, None)
    ensures Decides(rx, rules, q, best)
  {
    var ids := BlockPhase(rx, e, q.name);
    ConsiderPicksBest(e, ids, q, None);
    forall k | 0 <= k < |rules|
      ensures IdPriority(e, k) == Priority(rules[k].rule)
      ensures (k in ids && Passes(e, k, q)) <==> Hits(rx, rules[k].rule, q)
    {
      BlockScanCovers(rx, e, rules, q, k);
      PassesMeansHits(rx, e, rules, k, q);
    }
  }

  /** The two-phase lookup decides every query as a scan of all rules would. */
  lemma CheckDecides(rx: RegexEngine, e: Engine, rules: seq<BuildRule>, q: Query)
    requires Compiled(e, rules) && WellFormed(rules) && IsAscii(q.name)
    ensures Decides(rx, rules, q, CheckWinner(rx, e, q))
  {
    var best := Consider(e, FirstPhase(rx, e, q.name), q, None);
    FirstPhaseDecides(rx, e, rules, q, best);
    if best.None? {
      BlockScanDecides(rx, e, rules, q, Consider(e, BlockPhase(rx, e, q.name), q, None));
    }
  }

  /** Same outcome, and the same winning priority, as the linear scan. */
  lemma CheckAgreesWithLinearScan(rx: RegexEngine, e: Engine, rules: seq<BuildRule>, q: Query)
    requires Compiled(e, rules) && WellFormed(rules) && IsAscii(q.name)
    ensures var fast, slow := CheckWinner(rx, e, q), LinearScan(rx, rules, q);
            && fast.Some? == slow.Some?
            && (fast.Some? ==> slow.value < |rules| && Priority(rules[fast.value].rule) == Priority(rules[slow.value].rule))
  {
    CheckDecides(rx, e, rules, q);
    LinearScanFindsWinner(rx, rules, q);
  }

  /** With no client-dependent rule, `check` gives every client the same answer. */
  lemma CheckIgnoresClient(rx: RegexEngine, e: Engine, rules: seq<BuildRule>, q: Query, q': Query)
    requires Compiled(e, rules) && !e.clientDependent
    requires q.name == q'.name && q.rtype == q'.rtype
    ensures CheckWinner(rx, e, q) == CheckWinner(rx, e, q')
  {
    forall id | 0 <= id < |e.records| ensures Passes(e, id, q) == Passes(e, id, q') {
      assert RecordFor(e, rules[id].rule, e.records[id]);
      assert !DependsOnClient(rules[id].rule);
      ClientDoesNotMatter(e.records[id].action, ModsOf(e, e.records[id]), q, q');
    }
    ConsiderIgnoresClient(e, FirstPhase(rx, e, q.name), q, q', None);
    ConsiderIgnoresClient(e, BlockPhase(rx, e, q.name), q, q', None);
  }
}
