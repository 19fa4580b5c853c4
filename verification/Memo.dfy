/**
 Cached raw answers with memoised filter verdicts. Queries, late completions,
 background refreshes, reloads, imports and evictions interleave; a verdict is
 tagged with the content hash of the filter that gave it. What a filter decides is
 left open here; `MemoFilter` puts the compiled filters in.
 */
module Memo {
  import opened Wrappers
  import opened Keys
  import opened Rules
  import opened AnswerFilter

  /** What the handler asks of a filter: the blocking rule, client dependence, and the content hash. */
  datatype Env = Env(
    blocks: (Filter, ClientInfo, seq<RData>) -> Option<nat>,
    dependent: Filter -> bool,
    generation: Filter -> nat)

  datatype Config = Config(filter: Filter, filtering: bool)

  datatype Client = Client(info: ClientInfo, filtering: bool)

  /** `blocked` names the rule; `None` is a clean answer. */
  datatype Verdict = Verdict(generation: nat, blocked: Option<nat>)

  datatype Cached = Cached(answers: seq<RData>, verdict: Option<Verdict>)

  const PLACEHOLDER := ClientInfo(Some(Ip(false, 0)), None, [])

  // ---- what the handler computes ----

  predicate Memoises(env: Env, cfg: Config) {
    cfg.filtering && !env.dependent(cfg.filter)
  }

  /** What a miss caches once the upstream has answered: the raw answers, whoever asked. */
  function MissEntry(env: Env, cfg: Config, client: Client, answers: seq<RData>): Cached {
    var generation := env.generation(cfg.filter);
    var filtered := cfg.filtering && client.filtering;
    var mine := if filtered then env.blocks(cfg.filter, client.info, answers) else None;
    if mine.Some? then Cached(answers, if Memoises(env, cfg) then Some(Verdict(generation, mine)) else None)
    else if !Memoises(env, cfg) then Cached(answers, None)
    else if filtered then Cached(answers, Some(Verdict(generation, None)))
    else Cached(answers, Some(Verdict(generation, env.blocks(cfg.filter, client.info, answers))))
  }

  /** What a background refresh caches, for no client in particular. */
  function RefreshEntry(env: Env, cfg: Config, answers: seq<RData>): Cached {
    Cached(answers, if Memoises(env, cfg)
                    then Some(Verdict(env.generation(cfg.filter), env.blocks(cfg.filter, PLACEHOLDER, answers)))
                    else None)
  }

  predicate Trusted(env: Env, cfg: Config, v: Option<Verdict>) {
    v.Some? && !env.dependent(cfg.filter) && v.value.generation == env.generation(cfg.filter)
  }

  /** Whether a hit is blocked, and by which rule. */
  function HitBlock(env: Env, cfg: Config, client: Client, e: Cached): Option<nat> {
    if !(cfg.filtering && client.filtering) then None
    else if Trusted(env, cfg, e.verdict) then e.verdict.value.blocked
    else env.blocks(cfg.filter, client.info, e.answers)
  }

  // ---- all interleavings ----

  /** Work in flight holds the configuration it was started under. */
  datatype Task =
    | MissTask(key: QueryKey, cfg: Config, client: Client)
    | RefreshTask(key: QueryKey, cfg: Config)

  /** `history` lists every configuration ever live, the live one last. */
  datatype State = State(history: seq<Config>, cache: map<QueryKey, Cached>, tasks: seq<Task>)

  datatype Step =
    | Reload(cfg: Config)
    | StartMiss(key: QueryKey, client: Client, loaded: nat)
    | StartRefresh(key: QueryKey, loaded: nat)
    | Complete(task: nat, answers: seq<RData>, stored: bool)
    | Fail(task: nat)
    | Import(key: QueryKey, answers: seq<RData>)
    | Forget(key: QueryKey)          // expiry or eviction
    | ForgetAll                      // the cache is cleared or disabled

  /** A filter that claims not to depend on the client does not. */
  ghost predicate Uniform(env: Env, f: Filter) {
    !env.dependent(f) ==> forall a, b, answers :: env.blocks(f, a, answers) == env.blocks(f, b, answers)
  }

  ghost predicate Enabled(env: Env, s: State, step: Step) {
    match step
    case Reload(cfg) => Uniform(env, cfg.filter)
    case StartMiss(_, _, loaded) => loaded < |s.history|
    case StartRefresh(_, loaded) => loaded < |s.history|
    case Complete(i, _, _) => i < |s.tasks|
    case Fail(i) => i < |s.tasks|
    case _ => true
  }

  function DropTask(tasks: seq<Task>, i: nat): seq<Task>
    requires i < |tasks|
  {
    tasks[..i] + tasks[i + 1..]
  }

  function TaskEntry(env: Env, t: Task, answers: seq<RData>): Cached {
    match t
    case MissTask(_, cfg, client) => MissEntry(env, cfg, client, answers)
    case RefreshTask(_, cfg) => RefreshEntry(env, cfg, answers)
  }

  ghost function Next(env: Env, s: State, step: Step): State
    requires Enabled(env, s, step)
  {
    match step
    case Reload(cfg) => s.(history := s.history + [cfg])
    case StartMiss(key, client, loaded) => s.(tasks := s.tasks + [MissTask(key, s.history[loaded], client)])
    case StartRefresh(key, loaded) => s.(tasks := s.tasks + [RefreshTask(key, s.history[loaded])])
    case Complete(i, answers, stored) =>
      var t := s.tasks[i];
      s.(tasks := DropTask(s.tasks, i),
         cache := if stored then s.cache[t.key := TaskEntry(env, t, answers)] else s.cache)
    case Fail(i) => s.(tasks := DropTask(s.tasks, i))
    case Import(key, answers) => s.(cache := s.cache[key := Cached(answers, None)])
    case Forget(key) => s.(cache := s.cache - {key})
    case ForgetAll => s.(cache := map[])
  }

  ghost predicate IsRun(env: Env, s: State, steps: seq<Step>, t: State)
    decreases |steps|
  {
    if steps == [] then t == s
    else Enabled(env, s, steps[0]) && IsRun(env, Next(env, s, steps[0]), steps[1..], t)
  }

  function Boot(cfg: Config): State {
    State([cfg], map[], [])
  }

  // ---- every memoised verdict has a filter behind it ----

  /** The filter gives this verdict on these answers, to every client. */
  ghost predicate Vouches(env: Env, f: Filter, answers: seq<RData>, v: Verdict) {
    && !env.dependent(f) && v.generation == env.generation(f)
    && forall info :: env.blocks(f, info, answers).Some? == v.blocked.Some?
  }

  ghost predicate Backed(env: Env, history: seq<Config>, e: Cached) {
    e.verdict.Some? ==> exists h :: 0 <= h < |history| && Vouches(env, history[h].filter, e.answers, e.verdict.value)
  }

  ghost predicate WasLive(history: seq<Config>, cfg: Config) {
    exists h :: 0 <= h < |history| && history[h] == cfg
  }

  ghost predicate Inv(env: Env, s: State) {
    && (forall h :: 0 <= h < |s.history| ==> Uniform(env, s.history[h].filter))
    && (forall i :: 0 <= i < |s.tasks| ==> WasLive(s.history, s.tasks[i].cfg))
    && (forall key :: key in s.cache ==> Backed(env, s.history, s.cache[key]))
  }

  lemma TaskEntryBacked(env: Env, t: Task, answers: seq<RData>, history: seq<Config>, h: nat)
    requires h < |history| && history[h] == t.cfg && Uniform(env, t.cfg.filter)
    ensures Backed(env, history, TaskEntry(env, t, answers)) && TaskEntry(env, t, answers).answers == answers
  {
    var f := t.cfg.filter;
    if Memoises(env, t.cfg) {
      var info := if t.MissTask? then t.client.info else PLACEHOLDER;
      forall other ensures env.blocks(f, other, answers) == env.blocks(f, info, answers) {
      }
      assert Vouches(env, history[h].filter, answers, TaskEntry(env, t, answers).verdict.value);
    }
  }

  lemma BackedGrows(env: Env, history: seq<Config>, cfg: Config, e: Cached)
    requires Backed(env, history, e)
    ensures Backed(env, history + [cfg], e)
  {
    if e.verdict.Some? {
      var h :| 0 <= h < |history| && Vouches(env, history[h].filter, e.answers, e.verdict.value);
      assert (history + [cfg])[h] == history[h];
    }
  }

  /** A reload leaves every cached verdict backed and every task under a configuration that was live. */
  lemma ReloadKeepsInv(env: Env, s: State, cfg: Config)
    requires Inv(env, s) && Uniform(env, cfg.filter)
    ensures Inv(env, Next(env, s, Reload(cfg))) && Next(env, s, Reload(cfg)).cache == s.cache
  {
    var t := Next(env, s, Reload(cfg));
    forall key | key in t.cache ensures Backed(env, t.history, t.cache[key]) {
      BackedGrows(env, s.history, cfg, s.cache[key]);
    }
    forall i | 0 <= i < |t.tasks| ensures WasLive(t.history, t.tasks[i].cfg) {
      assert WasLive(s.history, s.tasks[i].cfg);
      var h :| 0 <= h < |s.history| && s.history[h] == s.tasks[i].cfg;
      assert t.history[h] == s.history[h];
    }
  }

  lemma CompleteKeepsInv(env: Env, s: State, i: nat, answers: seq<RData>, stored: bool)
    requires Inv(env, s) && Enabled(env, s, Complete(i, answers, stored))
    ensures Inv(env, Next(env, s, Complete(i, answers, stored)))
  {
    var t, task := Next(env, s, Complete(i, answers, stored)), s.tasks[i];
    assert WasLive(s.history, task.cfg);
    var h :| 0 <= h < |s.history| && s.history[h] == task.cfg;
    TaskEntryBacked(env, task, answers, s.history, h);
    forall key | key in t.cache ensures Backed(env, t.history, t.cache[key]) {
      assert (key in s.cache && t.cache[key] == s.cache[key]) || t.cache[key] == TaskEntry(env, task, answers);
    }
    forall k | 0 <= k < |t.tasks| ensures WasLive(t.history, t.tasks[k].cfg) {
      assert t.tasks[k] == s.tasks[if k < i then k else k + 1];
    }
  }

  lemma StartKeepsInv(env: Env, s: State, step: Step)
    requires Inv(env, s) && Enabled(env, s, step) && (step.StartMiss? || step.StartRefresh?)
    ensures Inv(env, Next(env, s, step))
  {
    var t := Next(env, s, step);
    forall k | 0 <= k < |t.tasks| ensures WasLive(t.history, t.tasks[k].cfg) {
      if k == |s.tasks| {
        assert t.history[step.loaded] == t.tasks[k].cfg;
      }
    }
  }

  lemma StepKeepsInv(env: Env, s: State, step: Step)
    requires Inv(env, s) && Enabled(env, s, step)
    ensures Inv(env, Next(env, s, step))
  {
    match step
    case Reload(cfg) => ReloadKeepsInv(env, s, cfg);
    case Complete(i, answers, stored) => CompleteKeepsInv(env, s, i, answers, stored);
    case StartMiss(_, _, _) => StartKeepsInv(env, s, step);
    case StartRefresh(_, _) => StartKeepsInv(env, s, step);
    case Fail(i) =>
      var tasks := DropTask(s.tasks, i);
      forall k | 0 <= k < |tasks| ensures WasLive(s.history, tasks[k].cfg) {
        assert tasks[k] == s.tasks[if k < i then k else k + 1];
      }
    case _ =>
  }

  /** In every interleaving each cached verdict is backed by a filter that was live under its generation. */
  lemma {:induction false} EveryRunKeepsInv(env: Env, s: State, steps: seq<Step>, t: State)
    requires Inv(env, s) && IsRun(env, s, steps, t)
    ensures Inv(env, t)
    decreases |steps|
  {
    if steps != [] {
      StepKeepsInv(env, s, steps[0]);
      EveryRunKeepsInv(env, Next(env, s, steps[0]), steps[1..], t);
    }
  }

  /** Filters of one generation decide these answers alike for this client. */
  ghost predicate GenerationAgrees(env: Env, history: seq<Config>, f: Filter, info: ClientInfo, answers: seq<RData>) {
    forall h :: 0 <= h < |history| && env.generation(history[h].filter) == env.generation(f) ==>
      env.blocks(history[h].filter, info, answers).Some? == env.blocks(f, info, answers).Some?
  }

  /**
   In every run, a hit is blocked exactly when filtering is on for the client and
   the loaded filter blocks the cached raw answers for that client, as long as
   filters of its generation decide these answers alike.
   */
  lemma HitsFollowTheFilter(env: Env, boot: Config, steps: seq<Step>, s: State, loaded: nat, client: Client, key: QueryKey)
    requires Uniform(env, boot.filter) && IsRun(env, Boot(boot), steps, s)
    requires loaded < |s.history| && key in s.cache
    requires GenerationAgrees(env, s.history, s.history[loaded].filter, client.info, s.cache[key].answers)
    ensures HitBlock(env, s.history[loaded], client, s.cache[key]).Some? <==>
            && s.history[loaded].filtering && client.filtering
            && env.blocks(s.history[loaded].filter, client.info, s.cache[key].answers).Some?
  {
    EveryRunKeepsInv(env, Boot(boot), steps, s);
    var cfg, e := s.history[loaded], s.cache[key];
    if Trusted(env, cfg, e.verdict) {
      assert Backed(env, s.history, e);
      var h :| 0 <= h < |s.history| && Vouches(env, s.history[h].filter, e.answers, e.verdict.value);
      assert env.blocks(s.history[h].filter, client.info, e.answers).Some? == e.verdict.value.blocked.Some?;
    }
  }

  // ---- a reload between a miss and a hit ----

  /** A miss answered under one configuration, then a reload. */
  lemma ReloadedRun(env: Env, g: Config, f: Config, key: QueryKey, client: Client, answers: seq<RData>)
    requires Uniform(env, g.filter) && Uniform(env, f.filter)
    ensures IsRun(env, Boot(g), [StartMiss(key, client, 0), Complete(0, answers, true), Reload(f)],
                  State([g, f], map[key := MissEntry(env, g, client, answers)], []))
  {
    var steps := [StartMiss(key, client, 0), Complete(0, answers, true), Reload(f)];
    var s1 := Next(env, Boot(g), steps[0]);
    assert steps[1..] == [Complete(0, answers, true), Reload(f)];
    assert s1 == State([g], map[], [MissTask(key, g, client)]);
    var s2 := Next(env, s1, steps[1]);
    assert steps[1..][1..] == [Reload(f)];
    assert DropTask(s1.tasks, 0) == [];
    assert s2 == State([g], map[key := MissEntry(env, g, client, answers)], []);
    var s3 := Next(env, s2, Reload(f));
    assert [Reload(f)][1..] == [];
    assert s3.history == [g, f];
    assert IsRun(env, s2, [Reload(f)], s3);
  }

  /** The hit after such a reload is decided as the new filter would. */
  ghost predicate HitIsRight(env: Env, f: Filter, g: Filter, client: Client, answers: seq<RData>) {
    HitBlock(env, Config(f, true), client, MissEntry(env, Config(g, true), client, answers)).Some?
    == env.blocks(f, client.info, answers).Some?
  }

  /** Between two filters of one generation it is right if and only if both decide the answers alike. */
  lemma HitIsRightIff(env: Env, f: Filter, g: Filter, client: Client, answers: seq<RData>)
    requires !env.dependent(f) && !env.dependent(g) && env.generation(f) == env.generation(g) && client.filtering
    ensures HitIsRight(env, f, g, client, answers)
            <==> env.blocks(f, client.info, answers).Some? == env.blocks(g, client.info, answers).Some?
  {
  }
}
