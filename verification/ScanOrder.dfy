/**
 The order in which wildcard and regex rules are met. Building a scan group is a
 function of the rules of the group and of the regex library's size limit alone,
 so it is stated here over any labels for the rules, and shown not to depend on
 the labels.
 */
module ScanOrder {
  import opened Wrappers
  import opened Tokens
  import opened Rules
  import opened FilterEngine
  import opened FilterCorrect
  import opened BucketOrder

  /** Whether the regex library accepts these programs as one set. */
  type SizeLimit = seq<Program> -> bool

  type Meta<T> = seq<(T, seq<Token>)>

  function MapSeq<T, U>(h: T -> U, s: seq<T>): (r: seq<U>)
    ensures |r| == |s| && forall k :: 0 <= k < |s| ==> r[k] == h(s[k])
  {
    if s == [] then [] else [h(s[0])] + MapSeq(h, s[1..])
  }

  // ---- filing under the rarest token ----

  /** How often a token occurs over all rules of a group. */
  function Frequency<T>(meta: Meta<T>, t: Token): nat {
    if meta == [] then 0 else Frequency(meta[..|meta| - 1], t) + multiset(meta[|meta| - 1].1)[t]
  }

  /** The first of the least frequent tokens. */
  function Rarest<T>(meta: Meta<T>, toks: seq<Token>): (r: Option<Token>)
    ensures r.None? <==> toks == []
    ensures r.Some? ==> r.value in toks && forall u :: u in toks ==> Frequency(meta, r.value) <= Frequency(meta, u)
  {
    if toks == [] then None
    else
      var n := |toks| - 1;
      var best := Rarest(meta, toks[..n]);
      assert toks == toks[..n] + [toks[n]];
      if best.None? || Frequency(meta, toks[n]) < Frequency(meta, best.value) then Some(toks[n]) else best
  }

  function AddTo<T>(index: map<Token, seq<T>>, t: Token, x: T): map<Token, seq<T>> {
    index[t := (if t in index then index[t] else []) + [x]]
  }

  /** The index after filing the first `n` rules. */
  function IndexFirst<T>(meta: Meta<T>, n: nat): map<Token, seq<T>>
    requires n <= |meta|
  {
    if n == 0 then map[]
    else
      var best := Rarest(meta, meta[n - 1].1);
      if best.Some? then AddTo(IndexFirst(meta, n - 1), best.value, meta[n - 1].0) else IndexFirst(meta, n - 1)
  }

  /** Those of the first `n` rules that have no token, or all of them when there is no index. */
  function FallbackFirst<T>(meta: Meta<T>, n: nat, tokenIndex: bool): seq<T>
    requires n <= |meta|
  {
    if n == 0 then []
    else FallbackFirst(meta, n - 1, tokenIndex) + (if tokenIndex && meta[n - 1].1 != [] then [] else [meta[n - 1].0])
  }

  const FALLBACK_CHUNK := 256

  function ChunkLen<T>(fallback: seq<T>): nat {
    if |fallback| < FALLBACK_CHUNK then |fallback| else FALLBACK_CHUNK
  }

  /** The fallback, chunk by chunk: one set each, or its rules one by one when the set does not fit. */
  function SetsFrom<T>(fits: SizeLimit, fallback: seq<T>, prog: T -> Program): seq<SetOf<T>>
    decreases |fallback|
  {
    if fallback == [] then []
    else
      var k := ChunkLen(fallback);
      var progs := MapSeq(prog, fallback[..k]);
      (if fits(progs) then [RegexSet(progs, fallback[..k])] else []) + SetsFrom(fits, fallback[k..], prog)
  }

  function AloneFrom<T>(fits: SizeLimit, fallback: seq<T>, prog: T -> Program): seq<T>
    decreases |fallback|
  {
    if fallback == [] then []
    else
      var k := ChunkLen(fallback);
      (if fits(MapSeq(prog, fallback[..k])) then [] else fallback[..k]) + AloneFrom(fits, fallback[k..], prog)
  }

  function GroupFrom<T>(fits: SizeLimit, meta: Meta<T>, prog: T -> Program, tokenIndex: bool): GroupOf<T> {
    var fallback := FallbackFirst(meta, |meta|, tokenIndex);
    ScanGroup(if tokenIndex then IndexFirst(meta, |meta|) else map[],
              SetsFrom(fits, fallback, prog), AloneFrom(fits, fallback, prog))
  }

  // ---- labels do not matter ----

  function MapMeta<T, U>(h: T -> U, meta: Meta<T>): (r: Meta<U>)
    ensures |r| == |meta| && forall k :: 0 <= k < |meta| ==> r[k] == (h(meta[k].0), meta[k].1)
  {
    if meta == [] then [] else [(h(meta[0].0), meta[0].1)] + MapMeta(h, meta[1..])
  }

  function MapIndex<T, U>(h: T -> U, index: map<Token, seq<T>>): map<Token, seq<U>> {
    map t | t in index :: MapSeq(h, index[t])
  }

  function MapSet<T, U>(h: T -> U, s: SetOf<T>): SetOf<U> {
    RegexSet(s.programs, MapSeq(h, s.ids))
  }

  function MapSets<T, U>(h: T -> U, sets: seq<SetOf<T>>): seq<SetOf<U>> {
    if sets == [] then [] else [MapSet(h, sets[0])] + MapSets(h, sets[1..])
  }

  function MapGroup<T, U>(h: T -> U, g: GroupOf<T>): GroupOf<U> {
    ScanGroup(MapIndex(h, g.index), MapSets(h, g.sets), MapSeq(h, g.individual))
  }

  lemma MapSeqAppend<T, U>(h: T -> U, a: seq<T>, b: seq<T>)
    ensures MapSeq(h, a + b) == MapSeq(h, a) + MapSeq(h, b)
  {
  }

  lemma MapMetaPrefix<T, U>(h: T -> U, meta: Meta<T>, n: nat)
    requires n <= |meta|
    ensures MapMeta(h, meta)[..n] == MapMeta(h, meta[..n])
  {
  }

  lemma {:induction false} FrequencyMap<T, U>(h: T -> U, meta: Meta<T>, t: Token)
    ensures Frequency(MapMeta(h, meta), t) == Frequency(meta, t)
    decreases |meta|
  {
    if meta != [] {
      var n := |meta| - 1;
      MapMetaPrefix(h, meta, n);
      FrequencyMap(h, meta[..n], t);
    }
  }

  lemma {:induction false} RarestMap<T, U>(h: T -> U, meta: Meta<T>, toks: seq<Token>)
    ensures Rarest(MapMeta(h, meta), toks) == Rarest(meta, toks)
    decreases |toks|
  {
    if toks != [] {
      var n := |toks| - 1;
      RarestMap(h, meta, toks[..n]);
      FrequencyMap(h, meta, toks[n]);
      if n > 0 {
        FrequencyMap(h, meta, Rarest(meta, toks[..n]).value);
      }
    }
  }

  lemma AddToMap<T, U>(h: T -> U, index: map<Token, seq<T>>, t: Token, x: T)
    ensures MapIndex(h, AddTo(index, t, x)) == AddTo(MapIndex(h, index), t, h(x))
  {
    MapSeqAppend(h, if t in index then index[t] else [], [x]);
    var a, b := MapIndex(h, AddTo(index, t, x)), AddTo(MapIndex(h, index), t, h(x));
    assert a.Keys == b.Keys;
    forall u | u in a ensures a[u] == b[u] {
    }
  }

  lemma {:induction false} IndexMap<T, U>(h: T -> U, meta: Meta<T>, n: nat)
    requires n <= |meta|
    ensures IndexFirst(MapMeta(h, meta), n) == MapIndex(h, IndexFirst(meta, n))
  {
    if n > 0 {
      IndexMap(h, meta, n - 1);
      RarestMap(h, meta, meta[n - 1].1);
      var best := Rarest(meta, meta[n - 1].1);
      if best.Some? {
        AddToMap(h, IndexFirst(meta, n - 1), best.value, meta[n - 1].0);
      }
    }
  }

  lemma {:induction false} FallbackMap<T, U>(h: T -> U, meta: Meta<T>, n: nat, tokenIndex: bool)
    requires n <= |meta|
    ensures FallbackFirst(MapMeta(h, meta), n, tokenIndex) == MapSeq(h, FallbackFirst(meta, n, tokenIndex))
  {
    if n > 0 {
      FallbackMap(h, meta, n - 1, tokenIndex);
      MapSeqAppend(h, FallbackFirst(meta, n - 1, tokenIndex), if tokenIndex && meta[n - 1].1 != [] then [] else [meta[n - 1].0]);
    }
  }

  lemma ChunkMap<T, U>(h: T -> U, fallback: seq<T>, prog: T -> Program, prog': U -> Program, k: nat)
    requires k <= |fallback| && forall x :: prog'(h(x)) == prog(x)
    ensures MapSeq(h, fallback)[..k] == MapSeq(h, fallback[..k]) && MapSeq(h, fallback)[k..] == MapSeq(h, fallback[k..])
    ensures MapSeq(prog', MapSeq(h, fallback)[..k]) == MapSeq(prog, fallback[..k])
  {
    MapSeqSlices(h, fallback, k);
    MapSeqTwice(h, fallback[..k], prog, prog');
  }

  lemma MapSeqSlices<T, U>(h: T -> U, s: seq<T>, k: nat)
    requires k <= |s|
    ensures MapSeq(h, s)[..k] == MapSeq(h, s[..k]) && MapSeq(h, s)[k..] == MapSeq(h, s[k..])
  {
  }

  lemma MapSeqTwice<T, U, V>(h: T -> U, s: seq<T>, f: T -> V, f': U -> V)
    requires forall x :: f'(h(x)) == f(x)
    ensures MapSeq(f', MapSeq(h, s)) == MapSeq(f, s)
  {
  }

  lemma MapSetsAppend<T, U>(h: T -> U, a: seq<SetOf<T>>, b: seq<SetOf<T>>)
    ensures MapSets(h, a + b) == MapSets(h, a) + MapSets(h, b)
  {
    if a == [] {
      assert a + b == b;
    } else {
      assert (a + b)[1..] == a[1..] + b;
      MapSetsAppend(h, a[1..], b);
    }
  }

  lemma {:induction false} SetsMap<T, U>(h: T -> U, fits: SizeLimit, fallback: seq<T>, prog: T -> Program, prog': U -> Program)
    requires forall x :: prog'(h(x)) == prog(x)
    ensures SetsFrom(fits, MapSeq(h, fallback), prog') == MapSets(h, SetsFrom(fits, fallback, prog))
    ensures AloneFrom(fits, MapSeq(h, fallback), prog') == MapSeq(h, AloneFrom(fits, fallback, prog))
    decreases |fallback|
  {
    if fallback != [] {
      var k := ChunkLen(fallback);
      var progs := MapSeq(prog, fallback[..k]);
      ChunkMap(h, fallback, prog, prog', k);
      SetsMap(h, fits, fallback[k..], prog, prog');
      var set1 := if fits(progs) then [RegexSet(progs, fallback[..k])] else [];
      MapSetsAppend(h, set1, SetsFrom(fits, fallback[k..], prog));
      MapSeqAppend(h, if fits(progs) then [] else fallback[..k], AloneFrom(fits, fallback[k..], prog));
    }
  }

  /** Relabelling the rules relabels the group, and changes nothing else. */
  lemma GroupMap<T, U>(h: T -> U, fits: SizeLimit, meta: Meta<T>, prog: T -> Program, prog': U -> Program, tokenIndex: bool)
    requires forall x :: prog'(h(x)) == prog(x)
    ensures GroupFrom(fits, MapMeta(h, meta), prog', tokenIndex) == MapGroup(h, GroupFrom(fits, meta, prog, tokenIndex))
  {
    IndexMap(h, meta, |meta|);
    FallbackMap(h, meta, |meta|, tokenIndex);
    SetsMap(h, fits, FallbackFirst(meta, |meta|, tokenIndex), prog, prog');
  }

  // ---- the groups of a rule list ----

  const NO_RULE := BuildRule(Rule("", Block, Exact(""), None, 0), "", [])

  function RuleAt(rules: seq<BuildRule>): nat -> BuildRule {
    (id: nat) => if id < |rules| then rules[id] else NO_RULE
  }

  function RuleProgram(br: BuildRule): Program {
    if IsScanPattern(br.rule.pattern) then ProgramOf(br.rule.pattern) else RegexProgram("")
  }

  function ProgramAt(rules: seq<BuildRule>): nat -> Program {
    (id: nat) => RuleProgram(RuleAt(rules)(id))
  }

  predicate Scanned(br: BuildRule, overriding: bool) {
    IsScanPattern(br.rule.pattern) && OverrideCapable(br.rule) == overriding
  }

  /** Ids and tokens of the scanned rules among the first `n`. */
  function MetaFirst(rules: seq<BuildRule>, overriding: bool, n: nat): Meta<nat>
    requires n <= |rules|
  {
    if n == 0 then []
    else MetaFirst(rules, overriding, n - 1) + (if Scanned(rules[n - 1], overriding) then [(n - 1, rules[n - 1].indexTokens)] else [])
  }

  /** The scan group compiled for a rule list. */
  function GroupOfRules(fits: SizeLimit, rules: seq<BuildRule>, overriding: bool): ScanGroup {
    GroupFrom(fits, MetaFirst(rules, overriding, |rules|), ProgramAt(rules), !overriding)
  }

  /** What `from_rules` returns: the engine is compiled, and its scan groups and the pairs in its indexes are the ones of the list. */
  ghost predicate Built(e: Engine, rules: seq<BuildRule>, fits: SizeLimit) {
    && Compiled(e, rules)
    && LaidOut(e.exact, PairsOf(rules, e.hash, true)) && LaidOut(e.subdomain, PairsOf(rules, e.hash, false))
    && e.overrideScan == GroupOfRules(fits, rules, true) && e.blockScan == GroupOfRules(fits, rules, false)
  }

  /** Buckets that hold what they should are what the lookup asks of an index. */
  lemma HoldsIndexed(e: Engine, rules: seq<BuildRule>)
    requires Holds(e.exact, rules, e.hash, true) && Holds(e.subdomain, rules, e.hash, false) && |e.records| == |rules|
    ensures ValidIndex(e.exact) && ValidIds(e, e.exact.hits) && ValidIndex(e.subdomain) && ValidIds(e, e.subdomain.hits)
    ensures forall h, id :: id in Bucket(e.exact, h) <==> HasExact(rules, e.hash, h, id)
    ensures forall h, id :: id in Bucket(e.subdomain, h) <==> HasSubdomain(rules, e.hash, h, id)
  {
    forall h: int, id: nat ensures id in Bucket(e.exact, h) <==> HasExact(rules, e.hash, h, id) {
      assert id in Bucket(e.exact, h) <==> Picked(rules, e.hash, h, true, id);
    }
    forall h: int, id: nat ensures id in Bucket(e.subdomain, h) <==> HasSubdomain(rules, e.hash, h, id) {
      assert id in Bucket(e.subdomain, h) <==> Picked(rules, e.hash, h, false, id);
    }
  }

  // ---- seen as sequences of rules ----

  /** The scanned rules themselves, in order. */
  function ScannedRules(rules: seq<BuildRule>, overriding: bool): Meta<BuildRule> {
    if rules == [] then []
    else
      var n := |rules| - 1;
      ScannedRules(rules[..n], overriding) + (if Scanned(rules[n], overriding) then [(rules[n], rules[n].indexTokens)] else [])
  }

  lemma MapMetaAppend<T, U>(h: T -> U, a: Meta<T>, b: Meta<T>)
    ensures MapMeta(h, a + b) == MapMeta(h, a) + MapMeta(h, b)
  {
  }

  lemma {:induction false} MetaAsRules(rules: seq<BuildRule>, overriding: bool, n: nat)
    requires n <= |rules|
    ensures MapMeta(RuleAt(rules), MetaFirst(rules, overriding, n)) == ScannedRules(rules[..n], overriding)
  {
    if n > 0 {
      MetaAsRules(rules, overriding, n - 1);
      assert rules[..n][..n - 1] == rules[..n - 1];
      MapMetaAppend<nat, BuildRule>(RuleAt(rules), MetaFirst(rules, overriding, n - 1),
                    if Scanned(rules[n - 1], overriding) then [(n - 1, rules[n - 1].indexTokens)] else []);
    }
  }

  /** The group of a list, with the rules in place of their ids. */
  function RuleGroup(fits: SizeLimit, scanned: Meta<BuildRule>, overriding: bool): GroupOf<BuildRule> {
    GroupFrom(fits, scanned, RuleProgram, !overriding)
  }

  lemma GroupAsRules(fits: SizeLimit, rules: seq<BuildRule>, overriding: bool)
    ensures MapGroup(RuleAt(rules), GroupOfRules(fits, rules, overriding)) == RuleGroup(fits, ScannedRules(rules, overriding), overriding)
  {
    MetaAsRules(rules, overriding, |rules|);
    assert rules[..|rules|] == rules;
    GroupMap(RuleAt(rules), fits, MetaFirst(rules, overriding, |rules|), ProgramAt(rules), RuleProgram, !overriding);
  }

  // ---- candidates as rules ----

  function MatchingRules(rx: RegexEngine, brs: seq<BuildRule>, name: string): seq<BuildRule> {
    if brs == [] then []
    else (if PatternMatches(rx, brs[0].rule.pattern, name) then [brs[0]] else []) + MatchingRules(rx, brs[1..], name)
  }

  function TokenRules(rx: RegexEngine, index: map<Token, seq<BuildRule>>, tokens: seq<Token>, name: string): seq<BuildRule> {
    if tokens == [] then []
    else
      (if tokens[0] in index then MatchingRules(rx, index[tokens[0]], name) else []) + TokenRules(rx, index, tokens[1..], name)
  }

  ghost function RuleCandidates(rx: RegexEngine, g: GroupOf<BuildRule>, name: string, tokens: seq<Token>): seq<BuildRule>
    requires EvenSets(g.sets)
  {
    AllSetHits(rx, g.sets, name) + MatchingRules(rx, g.individual, name) + TokenRules(rx, g.index, tokens, name)
  }

  lemma {:induction false} SetHitsMap<T, U>(h: T -> U, rx: RegexEngine, programs: seq<Program>, ids: seq<T>, name: string)
    requires |programs| == |ids|
    ensures SetHits(rx, programs, MapSeq(h, ids), name) == MapSeq(h, SetHits(rx, programs, ids, name))
    decreases |ids|
  {
    if ids != [] {
      SetHitsMap(h, rx, programs[1..], ids[1..], name);
      MapSeqAppend(h, if IsMatch(rx, programs[0], name) then [ids[0]] else [], SetHits(rx, programs[1..], ids[1..], name));
    }
  }

  lemma {:induction false} AllSetHitsMap<T, U>(h: T -> U, rx: RegexEngine, sets: seq<SetOf<T>>, name: string)
    requires EvenSets(sets)
    ensures EvenSets(MapSets(h, sets))
    ensures AllSetHits(rx, MapSets(h, sets), name) == MapSeq(h, AllSetHits(rx, sets, name))
    decreases |sets|
  {
    if sets != [] {
      AllSetHitsMap(h, rx, sets[1..], name);
      SetHitsMap(h, rx, sets[0].programs, sets[0].ids, name);
      MapSeqAppend(h, SetHits(rx, sets[0].programs, sets[0].ids, name), AllSetHits(rx, sets[1..], name));
    }
  }

  /** Every listed id is a scanned rule. */
  ghost predicate ScannedIds(rules: seq<BuildRule>, ids: seq<nat>) {
    forall k :: 0 <= k < |ids| ==> ids[k] < |rules| && IsScanPattern(rules[ids[k]].rule.pattern)
  }

  lemma {:induction false} MatchingIdsMap(rx: RegexEngine, e: Engine, rules: seq<BuildRule>, ids: seq<nat>, name: string)
    requires Compiled(e, rules) && ValidIds(e, ids) && ScannedIds(rules, ids)
    ensures MatchingRules(rx, MapSeq(RuleAt(rules), ids), name) == MapSeq(RuleAt(rules), MatchingIds(rx, e, ids, name))
    decreases |ids|
  {
    if ids != [] {
      var id, h := ids[0], RuleAt(rules);
      MatchingIdsMap(rx, e, rules, ids[1..], name);
      assert RecordFor(e, rules[id].rule, e.records[id]);
      assert ScanRuleMatches(rx, e, id, name) == PatternMatches(rx, rules[id].rule.pattern, name);
      assert MapSeq(h, ids)[0] == rules[id] && MapSeq(h, ids)[1..] == MapSeq(h, ids[1..]);
      MapSeqAppend(h, if ScanRuleMatches(rx, e, id, name) then [id] else [], MatchingIds(rx, e, ids[1..], name));
    }
  }

  ghost predicate ScannedIndex(rules: seq<BuildRule>, index: map<Token, seq<nat>>) {
    forall t :: t in index ==> ScannedIds(rules, index[t])
  }

  lemma {:induction false} TokenHitsMap(rx: RegexEngine, e: Engine, rules: seq<BuildRule>, g: ScanGroup, tokens: seq<Token>, name: string)
    requires Compiled(e, rules) && ValidGroup(e, g) && ScannedIndex(rules, g.index)
    ensures TokenRules(rx, MapIndex(RuleAt(rules), g.index), tokens, name) == MapSeq(RuleAt(rules), TokenHits(rx, e, g, tokens, name))
    decreases |tokens|
  {
    if tokens != [] {
      var h := RuleAt(rules);
      TokenHitsMap(rx, e, rules, g, tokens[1..], name);
      if tokens[0] in g.index {
        MatchingIdsMap(rx, e, rules, g.index[tokens[0]], name);
      }
      MapSeqAppend(h, if tokens[0] in g.index then MatchingIds(rx, e, g.index[tokens[0]], name) else [],
                   TokenHits(rx, e, g, tokens[1..], name));
    }
  }

  lemma GroupIsScanned(e: Engine, g: ScanGroup, rules: seq<BuildRule>, overriding: bool)
    requires GroupFor(e, g, rules, overriding)
    ensures ScannedIds(rules, g.individual) && ScannedIndex(rules, g.index) && EvenSets(g.sets)
  {
    forall k | 0 <= k < |g.individual| ensures g.individual[k] < |rules| && IsScanPattern(rules[g.individual[k]].rule.pattern) {
      assert g.individual[k] in g.individual;
    }
    forall t, k | t in g.index && 0 <= k < |g.index[t]|
      ensures g.index[t][k] < |rules| && IsScanPattern(rules[g.index[t][k]].rule.pattern)
    {
      var id: nat := g.index[t][k];
      assert id in g.index[t];
      assert InGroup(rules, overriding, id);
    }
  }

  /** The candidates of a group, read as rules, depend on the group's rules only. */
  lemma CandidatesAsRules(rx: RegexEngine, e: Engine, g: ScanGroup, rules: seq<BuildRule>, overriding: bool, name: string, tokens: seq<Token>)
    requires Compiled(e, rules) && GroupFor(e, g, rules, overriding)
    ensures EvenSets(MapGroup(RuleAt(rules), g).sets)
    ensures RuleCandidates(rx, MapGroup(RuleAt(rules), g), name, tokens) == MapSeq(RuleAt(rules), ScanCandidates(rx, e, g, name, tokens))
  {
    var h := RuleAt(rules);
    GroupIsScanned(e, g, rules, overriding);
    AllSetHitsMap(h, rx, g.sets, name);
    MatchingIdsMap(rx, e, rules, g.individual, name);
    TokenHitsMap(rx, e, rules, g, tokens, name);
    var a, b, c := AllSetHits(rx, g.sets, name), MatchingIds(rx, e, g.individual, name), TokenHits(rx, e, g, tokens, name);
    MapSeqAppend(h, a + b, c);
    MapSeqAppend(h, a, b);
  }
}
