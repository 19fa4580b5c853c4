/**
 The compiled, read-only filter: rule records over shared arenas, hash-bucketed
 domain indexes, token-indexed scan groups, and the two-phase lookup. What
 `check` computes is given here as a function of the compiled value; the methods
 that build and query it are in FilterBuild and FilterCheck.
 */
module FilterEngine {
  import opened Wrappers
  import opened Domains
  import opened Tokens
  import opened Globs
  import opened Rules

  datatype Kind = EXACT | SUBDOMAIN | WILDCARD | REGEX

  datatype RuleRecord = RuleRecord(kind: Kind, domOrRe: nat, domLen: nat, modsIdx: Option<nat>, action: Action, listId: nat)

  /** A compiled wildcard or regex, referenced by `RuleRecord.domOrRe`. */
  datatype Program = GlobProgram(glob: Glob) | RegexProgram(source: string)

  predicate IsMatch(rx: RegexEngine, p: Program, name: string) {
    match p
    case GlobProgram(g) => GlobMatches(g, name)
    case RegexProgram(s) => rx(s, name)
  }

  /** Maps a hash to a `(start, length)` range of `hits`. */
  datatype DomainIndex = DomainIndex(ranges: map<int, (nat, nat)>, hits: seq<nat>)

  ghost predicate ValidIndex(ix: DomainIndex) {
    forall h :: h in ix.ranges ==> ix.ranges[h].0 + ix.ranges[h].1 <= |ix.hits|
  }

  function Bucket(ix: DomainIndex, h: int): seq<nat>
    requires ValidIndex(ix)
  {
    if h in ix.ranges then ix.hits[ix.ranges[h].0..ix.ranges[h].0 + ix.ranges[h].1] else []
  }

  /** A group of scanned rules, labelled by what stands for a rule: its id, or the rule itself. */
  datatype SetOf<T> = RegexSet(programs: seq<Program>, ids: seq<T>)

  datatype GroupOf<T> = ScanGroup(index: map<Token, seq<T>>, sets: seq<SetOf<T>>, individual: seq<T>)

  type RegexSet = SetOf<nat>

  type ScanGroup = GroupOf<nat>

  datatype Engine = Engine(
    records: seq<RuleRecord>,
    domainArena: string,
    mods: seq<RuleMods>,
    programs: seq<Program>,
    hash: string -> int,
    exact: DomainIndex,
    subdomain: DomainIndex,
    overrideScan: ScanGroup,
    blockScan: ScanGroup,
    clientDependent: bool)

  predicate IsScanKind(k: Kind) {
    k == WILDCARD || k == REGEX
  }

  predicate IsScanPattern(p: Pattern) {
    p.Wildcard? || p.Regex?
  }

  function ProgramOf(p: Pattern): Program
    requires IsScanPattern(p)
  {
    match p
    case Wildcard(g) => GlobProgram(g)
    case Regex(s) => RegexProgram(s)
  }

  /** Every index a record carries points inside the arenas. */
  ghost predicate ValidRecord(e: Engine, rec: RuleRecord) {
    && (rec.modsIdx.Some? ==> rec.modsIdx.value < |e.mods|)
    && (IsScanKind(rec.kind) ==> rec.domOrRe < |e.programs|)
    && (!IsScanKind(rec.kind) ==> rec.domOrRe + rec.domLen <= |e.domainArena|)
  }

  function StoredDomain(e: Engine, rec: RuleRecord): string
    requires ValidRecord(e, rec) && !IsScanKind(rec.kind)
  {
    e.domainArena[rec.domOrRe..rec.domOrRe + rec.domLen]
  }

  function ModsOf(e: Engine, rec: RuleRecord): Option<RuleMods>
    requires ValidRecord(e, rec)
  {
    if rec.modsIdx.Some? then Some(e.mods[rec.modsIdx.value]) else None
  }

  /** Re-verifies a hash-bucket candidate against its stored domain. */
  predicate DomainMatches(e: Engine, rec: RuleRecord, name: string)
    requires ValidRecord(e, rec)
  {
    match rec.kind
    case EXACT => StoredDomain(e, rec) == name
    case SUBDOMAIN => IsSubdomainOf(name, StoredDomain(e, rec))
    case _ => true
  }

  predicate Applicable(e: Engine, rec: RuleRecord, q: Query)
    requires ValidRecord(e, rec)
  {
    ModsApply(rec.action, ModsOf(e, rec), q)
  }

  function RecordPriority(e: Engine, rec: RuleRecord): nat
    requires ValidRecord(e, rec)
  {
    PriorityOf(rec.action, ModsOf(e, rec))
  }

  ghost predicate ValidIds(e: Engine, ids: seq<nat>) {
    forall k :: 0 <= k < |ids| ==> ids[k] < |e.records|
  }

  ghost predicate ValidGroup(e: Engine, g: ScanGroup) {
    && (forall s :: s in g.sets ==> |s.programs| == |s.ids| && ValidIds(e, s.ids))
    && ValidIds(e, g.individual)
    && (forall t :: t in g.index ==> ValidIds(e, g.index[t]))
  }

  ghost predicate ValidEngine(e: Engine) {
    && (forall id :: 0 <= id < |e.records| ==> ValidRecord(e, e.records[id]))
    && ValidIndex(e.exact) && ValidIds(e, e.exact.hits)
    && ValidIndex(e.subdomain) && ValidIds(e, e.subdomain.hits)
    && ValidGroup(e, e.overrideScan) && ValidGroup(e, e.blockScan)
  }

  // ---- what the lookup loops compute ----

  function SuffixHits(e: Engine, suffixes: seq<string>): seq<nat>
    requires ValidEngine(e)
  {
    if suffixes == [] then [] else Bucket(e.subdomain, e.hash(suffixes[0])) + SuffixHits(e, suffixes[1..])
  }

  function DomainCandidates(e: Engine, name: string): seq<nat>
    requires ValidEngine(e)
  {
    Bucket(e.exact, e.hash(name)) + SuffixHits(e, DotSuffixes(name))
  }

  function SetHits<T>(rx: RegexEngine, programs: seq<Program>, ids: seq<T>, name: string): seq<T>
    requires |programs| == |ids|
  {
    if ids == [] then []
    else (if IsMatch(rx, programs[0], name) then [ids[0]] else []) + SetHits(rx, programs[1..], ids[1..], name)
  }

  ghost predicate EvenSets<T>(sets: seq<SetOf<T>>) {
    forall k :: 0 <= k < |sets| ==> |sets[k].programs| == |sets[k].ids|
  }

  function AllSetHits<T>(rx: RegexEngine, sets: seq<SetOf<T>>, name: string): seq<T>
    requires EvenSets(sets)
  {
    if sets == [] then []
    else SetHits(rx, sets[0].programs, sets[0].ids, name) + AllSetHits(rx, sets[1..], name)
  }

  predicate ScanRuleMatches(rx: RegexEngine, e: Engine, id: nat, name: string)
    requires ValidEngine(e) && id < |e.records|
  {
    IsScanKind(e.records[id].kind) && IsMatch(rx, e.programs[e.records[id].domOrRe], name)
  }

  function MatchingIds(rx: RegexEngine, e: Engine, ids: seq<nat>, name: string): seq<nat>
    requires ValidEngine(e) && ValidIds(e, ids)
  {
    if ids == [] then []
    else (if ScanRuleMatches(rx, e, ids[0], name) then [ids[0]] else []) + MatchingIds(rx, e, ids[1..], name)
  }

  function TokenHits(rx: RegexEngine, e: Engine, g: ScanGroup, tokens: seq<Token>, name: string): seq<nat>
    requires ValidEngine(e) && ValidGroup(e, g)
  {
    if tokens == [] then []
    else
      (if tokens[0] in g.index then MatchingIds(rx, e, g.index[tokens[0]], name) else [])
      + TokenHits(rx, e, g, tokens[1..], name)
  }

  function ScanCandidates(rx: RegexEngine, e: Engine, g: ScanGroup, name: string, tokens: seq<Token>): seq<nat>
    requires ValidEngine(e) && ValidGroup(e, g)
  {
    AllSetHits(rx, g.sets, name) + MatchingIds(rx, e, g.individual, name) + TokenHits(rx, e, g, tokens, name)
  }

  /** The candidate passes the domain re-check and its modifiers. */
  predicate Passes(e: Engine, id: nat, q: Query)
    requires ValidEngine(e) && id < |e.records|
  {
    DomainMatches(e, e.records[id], q.name) && Applicable(e, e.records[id], q)
  }

  function IdPriority(e: Engine, id: nat): nat
    requires ValidEngine(e) && id < |e.records|
  {
    RecordPriority(e, e.records[id])
  }

  /** `consider`: left to right, a passing candidate replaces only a strictly lower best. */
  function Consider(e: Engine, ids: seq<nat>, q: Query, best: Option<nat>): (r: Option<nat>)
    requires ValidEngine(e) && ValidIds(e, ids) && (best.Some? ==> best.value < |e.records|)
    ensures r.Some? ==> r.value < |e.records|
    decreases |ids|
  {
    if ids == [] then best
    else
      var id := ids[0];
      var next := if Passes(e, id, q) && (best.None? || IdPriority(e, id) > IdPriority(e, best.value)) then Some(id) else best;
      Consider(e, ids[1..], q, next)
  }

  lemma {:induction false} SuffixHitsValid(e: Engine, suffixes: seq<string>)
    requires ValidEngine(e)
    ensures ValidIds(e, SuffixHits(e, suffixes))
  {
    if suffixes != [] {
      SuffixHitsValid(e, suffixes[1..]);
    }
  }

  lemma {:induction false} SetHitsIn(rx: RegexEngine, programs: seq<Program>, ids: seq<nat>, name: string, id: nat)
    requires |programs| == |ids|
    ensures id in SetHits(rx, programs, ids, name) <==>
            exists k :: 0 <= k < |ids| && ids[k] == id && IsMatch(rx, programs[k], name)
  {
    if ids != [] {
      SetHitsIn(rx, programs[1..], ids[1..], name, id);
      if k :| 0 <= k < |ids| && ids[k] == id && IsMatch(rx, programs[k], name) && k > 0 {
        assert ids[1..][k - 1] == id && programs[1..][k - 1] == programs[k];
      }
      if k :| 0 <= k < |ids[1..]| && ids[1..][k] == id && IsMatch(rx, programs[1..][k], name) {
        assert ids[k + 1] == id && programs[k + 1] == programs[1..][k];
      }
    }
  }

  lemma {:induction false} AllSetHitsIn(rx: RegexEngine, sets: seq<RegexSet>, name: string, id: nat)
    requires EvenSets(sets)
    ensures id in AllSetHits(rx, sets, name) <==>
            exists s :: s in sets && id in SetHits(rx, s.programs, s.ids, name)
  {
    if sets != [] {
      AllSetHitsIn(rx, sets[1..], name, id);
      assert forall s :: s in sets <==> s == sets[0] || s in sets[1..];
    }
  }

  lemma {:induction false} MatchingIdsIn(rx: RegexEngine, e: Engine, ids: seq<nat>, name: string, id: nat)
    requires ValidEngine(e) && ValidIds(e, ids)
    ensures id in MatchingIds(rx, e, ids, name) <==> id in ids && ScanRuleMatches(rx, e, id, name)
  {
    if ids != [] {
      MatchingIdsIn(rx, e, ids[1..], name, id);
    }
  }

  lemma {:induction false} TokenHitsIn(rx: RegexEngine, e: Engine, g: ScanGroup, tokens: seq<Token>, name: string, id: nat)
    requires ValidEngine(e) && ValidGroup(e, g)
    ensures id in TokenHits(rx, e, g, tokens, name) <==>
            exists t :: t in tokens && t in g.index && id in g.index[t] && ScanRuleMatches(rx, e, id, name)
  {
    if tokens != [] {
      TokenHitsIn(rx, e, g, tokens[1..], name, id);
      if tokens[0] in g.index {
        MatchingIdsIn(rx, e, g.index[tokens[0]], name, id);
      }
      assert forall t :: t in tokens <==> t == tokens[0] || t in tokens[1..];
    }
  }

  lemma DomainCandidatesValid(e: Engine, name: string)
    requires ValidEngine(e)
    ensures ValidIds(e, DomainCandidates(e, name))
  {
    SuffixHitsValid(e, DotSuffixes(name));
  }

  lemma ScanCandidatesValid(rx: RegexEngine, e: Engine, g: ScanGroup, name: string, tokens: seq<Token>)
    requires ValidEngine(e) && ValidGroup(e, g)
    ensures ValidIds(e, ScanCandidates(rx, e, g, name, tokens))
  {
    var r := ScanCandidates(rx, e, g, name, tokens);
    forall k | 0 <= k < |r| ensures r[k] < |e.records| {
      var id := r[k];
      assert id in r;
      AllSetHitsIn(rx, g.sets, name, id);
      MatchingIdsIn(rx, e, g.individual, name, id);
      TokenHitsIn(rx, e, g, tokens, name, id);
      if s :| s in g.sets && id in SetHits(rx, s.programs, s.ids, name) {
        SetHitsIn(rx, s.programs, s.ids, name, id);
      }
    }
  }

  /** The first phase: domain hits and every overriding scan rule. */
  ghost function FirstPhase(rx: RegexEngine, e: Engine, name: string): (r: seq<nat>)
    requires ValidEngine(e)
    ensures ValidIds(e, r)
  {
    DomainCandidatesValid(e, name);
    ScanCandidatesValid(rx, e, e.overrideScan, name, []);
    DomainCandidates(e, name) + ScanCandidates(rx, e, e.overrideScan, name, [])
  }

  /** The second phase: plain scan blocks, found through the tokens of the name. */
  ghost function BlockPhase(rx: RegexEngine, e: Engine, name: string): (r: seq<nat>)
    requires ValidEngine(e)
    ensures ValidIds(e, r)
  {
    ScanCandidatesValid(rx, e, e.blockScan, name, QueryTokens(name));
    ScanCandidates(rx, e, e.blockScan, name, QueryTokens(name))
  }

  /** The whole lookup: the block scan runs only when the first phase found nothing. */
  ghost function CheckWinner(rx: RegexEngine, e: Engine, q: Query): (r: Option<nat>)
    requires ValidEngine(e)
    ensures r.Some? ==> r.value < |e.records|
  {
    var best := Consider(e, FirstPhase(rx, e, q.name), q, None);
    if best.Some? then best else Consider(e, BlockPhase(rx, e, q.name), q, None)
  }

  /** `consider` keeps the first of the highest-priority passing candidates. */
  lemma {:induction false} ConsiderPicksBest(e: Engine, ids: seq<nat>, q: Query, best: Option<nat>)
    requires ValidEngine(e) && ValidIds(e, ids) && (best.Some? ==> best.value < |e.records|)
    ensures var r := Consider(e, ids, q, best);
            && (r.None? <==> best.None? && forall id :: id in ids ==> !Passes(e, id, q))
            && (r.Some? ==> r == best || (r.value in ids && Passes(e, r.value, q)))
            && (r.Some? && best.Some? ==> IdPriority(e, best.value) <= IdPriority(e, r.value))
            && (r.Some? ==> forall id :: id in ids && Passes(e, id, q) ==> IdPriority(e, id) <= IdPriority(e, r.value))
    decreases |ids|
  {
    if ids != [] {
      var id := ids[0];
      var next := if Passes(e, id, q) && (best.None? || IdPriority(e, id) > IdPriority(e, best.value)) then Some(id) else best;
      ConsiderPicksBest(e, ids[1..], q, next);
      assert forall i :: i in ids <==> i == id || i in ids[1..];
    }
  }

  lemma ClientDoesNotMatter(action: Action, mods: Option<RuleMods>, q: Query, q': Query)
    requires q.name == q'.name && q.rtype == q'.rtype
    requires mods.Some? ==> mods.value.client.None? && mods.value.ctag.None?
    ensures ModsApply(action, mods, q) == ModsApply(action, mods, q')
  {
  }

  lemma {:induction false} ConsiderIgnoresClient(e: Engine, ids: seq<nat>, q: Query, q': Query, best: Option<nat>)
    requires ValidEngine(e) && ValidIds(e, ids) && (best.Some? ==> best.value < |e.records|)
    requires q.name == q'.name && q.rtype == q'.rtype
    requires forall id :: 0 <= id < |e.records| ==> Passes(e, id, q) == Passes(e, id, q')
    ensures Consider(e, ids, q, best) == Consider(e, ids, q', best)
    decreases |ids|
  {
    if ids != [] {
      var id := ids[0];
      var next := if Passes(e, id, q) && (best.None? || IdPriority(e, id) > IdPriority(e, best.value)) then Some(id) else best;
      ConsiderIgnoresClient(e, ids[1..], q, q', next);
    }
  }
}
