/** Memoised verdicts of compiled filters: when recompiling a rule list can make one wrong. */
module MemoFilter {
  import opened Wrappers
  import opened Keys
  import opened Domains
  import opened Rules
  import opened FilterTies
  import opened AnswerFilter
  import opened Memo

  /** Libraries: regular expressions, address rendering, and the content hash of a rule list. */
  datatype Lib = Lib(rx: RegexEngine, render: Render, contentHash: seq<BuildRule> -> nat)

  /** The handler's questions, answered for one compiled filter. */
  ghost predicate Answers(env: Env, lib: Lib, f: Filter) {
    && ValidFilter(f)
    && env.dependent(f) == f.engine.clientDependent && env.generation(f) == lib.contentHash(f.rules)
    && forall info, answers :: env.blocks(f, info, answers) == FirstBlock(lib.rx, f, info, Probes(lib.render, answers))
  }

  /** Every compiled filter without client or tag modifiers decides alike for all clients. */
  lemma {:induction false} CompiledIsUniform(env: Env, lib: Lib, f: Filter)
    requires Answers(env, lib, f)
    ensures Uniform(env, f)
  {
    if !env.dependent(f) {
      forall a, b, answers ensures env.blocks(f, a, answers) == env.blocks(f, b, answers) {
        FirstBlockIgnoresClient(lib.rx, f, a, b, Probes(lib.render, answers));
      }
    }
  }

  /** Filters of equal content hash come from the same rules. */
  ghost predicate CollisionFree(lib: Lib, f: Filter, g: Filter) {
    lib.contentHash(f.rules) == lib.contentHash(g.rules) ==> SameList(f, g)
  }

  /** `g` is the same compilation, or the answer is unambiguous for both. */
  ghost predicate Settled(lib: Lib, f: Filter, g: Filter, info: ClientInfo, probes: seq<Probe>, apart: bool) {
    f == g || (Considered(f, probes, apart) && Considered(g, probes, apart) && Unambiguous(lib.rx, f, info, probes, apart))
  }

  lemma {:induction false} SettledAgrees(env: Env, lib: Lib, f: Filter, g: Filter, info: ClientInfo, answers: seq<RData>, probes: seq<Probe>, apart: bool)
    requires Answers(env, lib, f) && Answers(env, lib, g) && SameList(f, g)
    requires probes == Probes(lib.render, answers) && AsciiProbes(probes) && Settled(lib, f, g, info, probes, apart)
    ensures env.blocks(g, info, answers).Some? == env.blocks(f, info, answers).Some?
  {
    if f != g {
      FirstBlockIff(lib.rx, f, info, probes);
      FirstBlockIff(lib.rx, g, info, probes);
      UnambiguousAgrees(lib.rx, f, g, info, probes, apart);
    }
  }

  /**
   In every run, a hit is blocked exactly when filtering is on for the client and
   the loaded filter blocks the cached raw answers for that client. It takes the
   content hash to be free of collisions, and any other compilation of the list
   that was live to leave the answer unambiguous.
   */
  lemma {:induction false} HitsFollowTheLiveFilter(env: Env, lib: Lib, boot: Config, steps: seq<Step>, s: State, loaded: nat, f: Filter, client: Client,
                                                   key: QueryKey, probes: seq<Probe>, apart: bool)
    requires Uniform(env, boot.filter) && IsRun(env, Boot(boot), steps, s) && loaded < |s.history| && key in s.cache
    requires f == s.history[loaded].filter && probes == Probes(lib.render, s.cache[key].answers) && AsciiProbes(probes)
    requires HistorySettled(env, lib, s.history, f, client.info, probes, apart)
    ensures ValidFilter(f)
    ensures HitBlock(env, s.history[loaded], client, s.cache[key]).Some? <==>
            s.history[loaded].filtering && client.filtering && SomeBlocked(lib.rx, f, client.info, probes)
  {
    var answers := s.cache[key].answers;
    assert Answers(env, lib, f);
    LiveGenerationAgrees(env, lib, s.history, f, client.info, answers, probes, apart);
    BlocksMeansSomeBlocked(env, lib, f, client.info, answers, probes);
    HitsFollowTheFilter(env, boot, steps, s, loaded, client, key);
  }

  /** All filters that were live are compiled, and those of the same content hash as `f` leave the answer settled. */
  ghost predicate HistorySettled(env: Env, lib: Lib, history: seq<Config>, f: Filter, info: ClientInfo, probes: seq<Probe>, apart: bool) {
    forall h :: 0 <= h < |history| ==> FilterSettled(env, lib, f, history[h].filter, info, probes, apart)
  }

  ghost predicate FilterSettled(env: Env, lib: Lib, f: Filter, g: Filter, info: ClientInfo, probes: seq<Probe>, apart: bool) {
    && Answers(env, lib, f) && Answers(env, lib, g) && CollisionFree(lib, f, g)
    && (SameList(f, g) ==> Settled(lib, f, g, info, probes, apart))
  }

  lemma {:induction false} BlocksMeansSomeBlocked(env: Env, lib: Lib, f: Filter, info: ClientInfo, answers: seq<RData>, probes: seq<Probe>)
    requires probes == Probes(lib.render, answers)
    ensures Answers(env, lib, f) ==> (env.blocks(f, info, answers).Some? <==> SomeBlocked(lib.rx, f, info, probes))
  {
    if Answers(env, lib, f) {
      FirstBlockIff(lib.rx, f, info, probes);
    }
  }

  lemma {:induction false} LiveGenerationAgrees(env: Env, lib: Lib, history: seq<Config>, f: Filter, info: ClientInfo, answers: seq<RData>,
                                                probes: seq<Probe>, apart: bool)
    requires probes == Probes(lib.render, answers) && AsciiProbes(probes)
    ensures HistorySettled(env, lib, history, f, info, probes, apart) ==> GenerationAgrees(env, history, f, info, answers)
  {
    if HistorySettled(env, lib, history, f, info, probes, apart) {
      forall h | 0 <= h < |history| && env.generation(history[h].filter) == env.generation(f)
        ensures env.blocks(history[h].filter, info, answers).Some? == env.blocks(f, info, answers).Some?
      {
        assert FilterSettled(env, lib, f, history[h].filter, info, probes, apart);
        SettledAgrees(env, lib, f, history[h].filter, info, answers, probes, apart);
      }
    }
  }

  // ---- the condition is exact ----

  lemma SameListSameDependence(f: Filter, g: Filter)
    requires ValidFilter(f) && ValidFilter(g) && f.rules == g.rules
    ensures f.engine.clientDependent == g.engine.clientDependent
  {
  }

  /** The handler decides a hit after a reload as the new compilation would. */
  lemma {:induction false} ReloadIsRightIff(env: Env, lib: Lib, f: Filter, g: Filter, client: Client, answers: seq<RData>, probes: seq<Probe>)
    requires Answers(env, lib, f) && Answers(env, lib, g) && SameList(f, g) && !f.engine.clientDependent && client.filtering
    requires probes == Probes(lib.render, answers)
    ensures HitIsRight(env, f, g, client, answers)
            <==> SomeBlocked(lib.rx, f, client.info, probes) == SomeBlocked(lib.rx, g, client.info, probes)
  {
    SameListSameDependence(f, g);
    HitIsRightIff(env, f, g, client, answers);
    FirstBlockIff(lib.rx, f, client.info, probes);
    FirstBlockIff(lib.rx, g, client.info, probes);
  }

  /** Whatever two compilations of the list a miss and a later hit fall under, the hit is right. */
  ghost predicate HitsAreRight(lib: Lib, f: Filter, client: Client, answers: seq<RData>, probes: seq<Probe>, apart: bool) {
    forall env, g, h |
      && Answers(env, lib, g) && Answers(env, lib, h) && SameList(f, g) && SameList(f, h)
      && Considered(g, probes, apart) && Considered(h, probes, apart) ::
      HitIsRight(env, g, h, client, answers)
  }

  lemma {:induction false} UnambiguousHitsAreRight(lib: Lib, f: Filter, client: Client, answers: seq<RData>, probes: seq<Probe>, apart: bool)
    requires Considered(f, probes, apart) && !f.engine.clientDependent && client.filtering
    requires probes == Probes(lib.render, answers) && AsciiProbes(probes) && Unambiguous(lib.rx, f, client.info, probes, apart)
    ensures HitsAreRight(lib, f, client, answers, probes, apart)
  {
    forall env, g, h |
      && Answers(env, lib, g) && Answers(env, lib, h) && SameList(f, g) && SameList(f, h)
      && Considered(g, probes, apart) && Considered(h, probes, apart)
      ensures HitIsRight(env, g, h, client, answers)
    {
      SameListSameDependence(f, g);
      ReloadIsRightIff(env, lib, g, h, client, answers, probes);
      UnambiguousAgrees(lib.rx, f, g, client.info, probes, apart);
      UnambiguousAgrees(lib.rx, f, h, client.info, probes, apart);
    }
  }

  /** The handler's questions, answered for all compiled filters. */
  ghost function EnvOf(lib: Lib): Env {
    Env((f: Filter, info: ClientInfo, answers: seq<RData>) => if ValidFilter(f) then FirstBlock(lib.rx, f, info, Probes(lib.render, answers)) else None,
        (f: Filter) => f.engine.clientDependent, (f: Filter) => lib.contentHash(f.rules))
  }

  lemma EnvAnswers(lib: Lib, f: Filter)
    requires ValidFilter(f)
    ensures Answers(EnvOf(lib), lib, f)
  {
  }

  lemma {:induction false} AmbiguousHitGoesWrong(lib: Lib, f: Filter, client: Client, answers: seq<RData>, probes: seq<Probe>, apart: bool)
    requires Considered(f, probes, apart) && !f.engine.clientDependent && client.filtering
    requires probes == Probes(lib.render, answers) && AsciiProbes(probes) && !Unambiguous(lib.rx, f, client.info, probes, apart)
    ensures !HitsAreRight(lib, f, client, answers, probes, apart)
  {
    var g, h := AmbiguousDisagrees(lib.rx, f, client.info, probes, apart);
    EnvAnswers(lib, g);
    EnvAnswers(lib, h);
    SameListSameDependence(f, g);
    ReloadIsRightIff(EnvOf(lib), lib, g, h, client, answers, probes);
  }

  /**
   A verdict memoised before a reload of the same list is right after it, whichever
   compilations of the list these are, if and only if the answer is unambiguous.
   */
  lemma {:induction false} MemoisedVerdictsRightIff(lib: Lib, f: Filter, client: Client, answers: seq<RData>, probes: seq<Probe>, apart: bool)
    requires Considered(f, probes, apart) && !f.engine.clientDependent && client.filtering
    requires probes == Probes(lib.render, answers) && AsciiProbes(probes)
    ensures HitsAreRight(lib, f, client, answers, probes, apart) <==> Unambiguous(lib.rx, f, client.info, probes, apart)
  {
    if Unambiguous(lib.rx, f, client.info, probes, apart) {
      UnambiguousHitsAreRight(lib, f, client, answers, probes, apart);
    } else {
      AmbiguousHitGoesWrong(lib, f, client, answers, probes, apart);
    }
  }

  /** The same name blocked and rewritten, both at the same rank. */
  function TieList(): seq<BuildRule> {
    [BuildRule(Rule("ads", Block, Subdomain("ads"), None, 1), "", []),
     BuildRule(Rule("ads$dnsrewrite=0.0.0.0", Rewrite, Subdomain("ads"),
                    Some(RuleMods(false, None, None, None, [], Some("0.0.0.0"))), 1), "", [])]
  }

  /** An alias to that name is blocked or not at the whim of bucket order, collisions or not. */
  lemma {:induction false} TieIsAmbiguous(lib: Lib, f: Filter, client: ClientInfo, apart: bool)
    requires ValidFilter(f) && f.rules == TieList()
    ensures !Unambiguous(lib.rx, f, client, Probes(lib.render, [Cname("ads")]), apart)
  {
    AliasProbe(lib.render);
    MixedAlone(lib.rx, f, client, Probe("ads", "CNAME"), apart);
  }

  lemma {:induction false} MixedAlone(rx: RegexEngine, f: Filter, client: ClientInfo, p: Probe, apart: bool)
    requires ValidFilter(f) && f.rules == TieList() && Normalize(p.name) == "ads"
    ensures !Unambiguous(rx, f, client, [p], apart)
  {
    TieIsMixed(rx, f.rules, QueryOf(p, client), apart);
    MixedIsAmbiguous(rx, f, client, p, apart);
  }

  lemma AliasProbe(render: Render)
    ensures Probes(render, [Cname("ads")]) == [Probe("ads", "CNAME")] && Normalize("ads") == "ads"
  {
    assert TrimTrailingDots("ads") == "ads";
    assert Lower("ads") == "ads";
    assert [Cname("ads")][1..] == [];
  }

  lemma {:induction false} TieIsMixed(rx: RegexEngine, rules: seq<BuildRule>, q: Query, apart: bool)
    requires rules == TieList() && q.name == "ads"
    ensures Mixed(rx, rules, q, apart)
  {
    assert Hits(rx, rules[0].rule, q) && Hits(rx, rules[1].rule, q);
    assert IsWinner(rx, rules, q, 0) && IsWinner(rx, rules, q, 1);
    assert Decisive(rx, rules, q, 0, apart) && Decisive(rx, rules, q, 1, apart);
  }

  // ---- the engine object ----

  /** Filters the answers of a response. */
  method Decide(lib: Lib, ghost env: Env, f: Filter, info: ClientInfo, answers: seq<RData>) returns (blocked: Option<nat>)
    requires Answers(env, lib, f)
    ensures blocked == env.blocks(f, info, answers)
  {
    blocked := FilterAnswers(lib.rx, f, info, answers, lib.render);
  }

  class Resolver {
    const lib: Lib
    ghost const env: Env
    var live: Config
    var cache: map<QueryKey, Cached>

    constructor (lib: Lib, ghost env: Env, cfg: Config)
      requires Answers(env, lib, cfg.filter)
      ensures this.lib == lib && this.env == env && live == cfg && cache == map[]
    {
      this.lib, this.env, live, cache := lib, env, cfg, map[];
    }

    /** Serves a hit under the configuration the query loaded. */
    method AnswerHit(cfg: Config, client: Client, key: QueryKey) returns (blocked: Option<nat>)
      requires Answers(env, lib, cfg.filter) && key in cache
      ensures blocked == HitBlock(env, cfg, client, cache[key])
    {
      blocked := None;
      if cfg.filtering && client.filtering {
        var v := cache[key].verdict;
        if v.Some? && !cfg.filter.engine.clientDependent && v.value.generation == lib.contentHash(cfg.filter.rules) {
          blocked := v.value.blocked;
        } else {
          blocked := Decide(lib, env, cfg.filter, client.info, cache[key].answers);
        }
      }
    }

    /** Finishes a miss: caches the raw answers, and tells whether this client's reply is blocked. */
    method CompleteMiss(cfg: Config, client: Client, key: QueryKey, answers: seq<RData>) returns (blocked: Option<nat>)
      requires Answers(env, lib, cfg.filter)
      modifies this`cache
      ensures cache == old(cache)[key := MissEntry(env, cfg, client, answers)]
      ensures blocked == if cfg.filtering && client.filtering then env.blocks(cfg.filter, client.info, answers) else None
    {
      var filtered := cfg.filtering && client.filtering;
      var memoise := cfg.filtering && !cfg.filter.engine.clientDependent;
      var generation := lib.contentHash(cfg.filter.rules);
      blocked := None;
      if filtered {
        blocked := Decide(lib, env, cfg.filter, client.info, answers);
      }
      if blocked.Some? {
        cache := cache[key := Cached(answers, if memoise then Some(Verdict(generation, blocked)) else None)];
        return;
      }
      var verdict: Option<Verdict> := None;
      if memoise {
        var outcome: Option<nat> := None;
        if !filtered {
          outcome := Decide(lib, env, cfg.filter, client.info, answers);
        }
        verdict := Some(Verdict(generation, outcome));
      }
      cache := cache[key := Cached(answers, verdict)];
    }

    /** Finishes a background refresh started under `cfg`, however long ago. */
    method CompleteRefresh(cfg: Config, key: QueryKey, answers: seq<RData>)
      requires Answers(env, lib, cfg.filter)
      modifies this`cache
      ensures cache == old(cache)[key := RefreshEntry(env, cfg, answers)]
    {
      var verdict: Option<Verdict> := None;
      if cfg.filtering && !cfg.filter.engine.clientDependent {
        var outcome := Decide(lib, env, cfg.filter, PLACEHOLDER, answers);
        verdict := Some(Verdict(lib.contentHash(cfg.filter.rules), outcome));
      }
      cache := cache[key := Cached(answers, verdict)];
    }
  }
}
