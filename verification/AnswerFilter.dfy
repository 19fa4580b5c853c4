/** Response-side filtering: the names and addresses in an answer are checked one by one. */
module AnswerFilter {
  import opened Wrappers
  import opened Domains
  import opened Rules
  import opened FilterEngine
  import opened FilterCorrect
  import opened BucketOrder
  import opened ScanOrder
  import opened FilterTies
  import FilterCheck

  /** Text form of an address, as a library renders it. */
  type Render = Ip -> string

  datatype SvcParam = Hint(ips: seq<Ip>) | OtherParam

  datatype RData =
    | Cname(target: string)
    | A(ip: Ip)
    | Aaaa(ip: Ip)
    | Service(svcParams: seq<SvcParam>)   // HTTPS and SVCB
    | OtherData

  datatype Probe = Probe(name: string, rtype: string)

  /** A rule list, the size limit of the regex library, and one compilation. */
  datatype Filter = Filter(rules: seq<BuildRule>, fits: SizeLimit, engine: Engine)

  ghost predicate ValidFilter(f: Filter) {
    Built(f.engine, f.rules, f.fits) && WellFormed(f.rules)
  }

  // ---- what is checked ----

  function IpProbes(render: Render, ips: seq<Ip>): seq<Probe> {
    if ips == [] then [] else [Probe(render(ips[0]), "HTTPS")] + IpProbes(render, ips[1..])
  }

  function HintProbes(render: Render, svcParams: seq<SvcParam>): seq<Probe> {
    if svcParams == [] then []
    else (if svcParams[0].Hint? then IpProbes(render, svcParams[0].ips) else []) + HintProbes(render, svcParams[1..])
  }

  function ProbesOf(render: Render, d: RData): seq<Probe> {
    match d
    case Cname(target) => [Probe(TrimTrailingDots(target), "CNAME")]
    case A(ip) => [Probe(render(ip), "A")]
    case Aaaa(ip) => [Probe(render(ip), "AAAA")]
    case Service(svcParams) => HintProbes(render, svcParams)
    case OtherData => []
  }

  function Probes(render: Render, answers: seq<RData>): seq<Probe> {
    if answers == [] then [] else ProbesOf(render, answers[0]) + Probes(render, answers[1..])
  }

  function QueryOf(p: Probe, client: ClientInfo): Query {
    Query(Normalize(p.name), p.rtype, client)
  }

  /** The blocking rule for one probe, if its verdict is to block. */
  ghost function ProbeBlock(rx: RegexEngine, f: Filter, client: ClientInfo, p: Probe): Option<nat>
    requires ValidEngine(f.engine)
  {
    var w := CheckWinner(rx, f.engine, QueryOf(p, client));
    if BlockedBy(f.rules, w) then w else None
  }

  /** The first blocked probe decides. */
  ghost function FirstBlock(rx: RegexEngine, f: Filter, client: ClientInfo, probes: seq<Probe>): Option<nat>
    requires ValidEngine(f.engine)
  {
    if probes == [] then None
    else if ProbeBlock(rx, f, client, probes[0]).Some? then ProbeBlock(rx, f, client, probes[0])
    else FirstBlock(rx, f, client, probes[1..])
  }

  ghost predicate SomeBlocked(rx: RegexEngine, f: Filter, client: ClientInfo, probes: seq<Probe>)
    requires ValidEngine(f.engine)
  {
    exists i :: 0 <= i < |probes| && ProbeBlock(rx, f, client, probes[i]).Some?
  }

  lemma {:induction false} FirstBlockIff(rx: RegexEngine, f: Filter, client: ClientInfo, probes: seq<Probe>)
    requires ValidEngine(f.engine)
    ensures FirstBlock(rx, f, client, probes).Some? <==> SomeBlocked(rx, f, client, probes)
    decreases |probes|
  {
    if probes != [] {
      FirstBlockIff(rx, f, client, probes[1..]);
      if i :| 0 <= i < |probes| && ProbeBlock(rx, f, client, probes[i]).Some? {
        assert i > 0 ==> probes[1..][i - 1] == probes[i];
      }
    }
  }

  lemma {:induction false} FirstBlockAppend(rx: RegexEngine, f: Filter, client: ClientInfo, a: seq<Probe>, b: seq<Probe>)
    requires ValidEngine(f.engine)
    ensures FirstBlock(rx, f, client, a + b)
            == if FirstBlock(rx, f, client, a).Some? then FirstBlock(rx, f, client, a) else FirstBlock(rx, f, client, b)
    decreases |a|
  {
    if a == [] {
      assert a + b == b;
    } else {
      assert (a + b)[1..] == a[1..] + b;
      FirstBlockAppend(rx, f, client, a[1..], b);
    }
  }

  /** Without client-dependent rules, the first blocked probe is the same for every client. */
  lemma {:induction false} FirstBlockIgnoresClient(rx: RegexEngine, f: Filter, a: ClientInfo, b: ClientInfo, probes: seq<Probe>)
    requires ValidFilter(f) && !f.engine.clientDependent
    ensures FirstBlock(rx, f, a, probes) == FirstBlock(rx, f, b, probes)
    decreases |probes|
  {
    if probes != [] {
      CheckIgnoresClient(rx, f.engine, f.rules, QueryOf(probes[0], a), QueryOf(probes[0], b));
      FirstBlockIgnoresClient(rx, f, a, b, probes[1..]);
    }
  }

  // ---- as the code computes it ----

  method CheckProbe(rx: RegexEngine, f: Filter, client: ClientInfo, p: Probe) returns (hit: Option<nat>)
    requires ValidFilter(f)
    ensures hit == ProbeBlock(rx, f, client, p)
  {
    var name := FilterCheck.NormalizeName(p.name);
    hit := FilterCheck.FindRule(rx, f.engine, Query(name, p.rtype, client));
    if hit.Some? {
      assert RecordFor(f.engine, f.rules[hit.value].rule, f.engine.records[hit.value]);
      if f.engine.records[hit.value].action != Block {
        hit := None;
      }
    }
  }

  method CheckIps(rx: RegexEngine, f: Filter, client: ClientInfo, ips: seq<Ip>, render: Render) returns (hit: Option<nat>)
    requires ValidFilter(f)
    ensures hit == FirstBlock(rx, f, client, IpProbes(render, ips))
  {
    for i := 0 to |ips|
      invariant FirstBlock(rx, f, client, IpProbes(render, ips)) == FirstBlock(rx, f, client, IpProbes(render, ips[i..]))
    {
      hit := CheckProbe(rx, f, client, Probe(render(ips[i]), "HTTPS"));
      assert IpProbes(render, ips[i..])[1..] == IpProbes(render, ips[i + 1..]);
      if hit.Some? {
        return;
      }
    }
    hit := None;
  }

  method CheckHints(rx: RegexEngine, f: Filter, client: ClientInfo, svcParams: seq<SvcParam>, render: Render) returns (hit: Option<nat>)
    requires ValidFilter(f)
    ensures hit == FirstBlock(rx, f, client, HintProbes(render, svcParams))
  {
    for i := 0 to |svcParams|
      invariant FirstBlock(rx, f, client, HintProbes(render, svcParams)) == FirstBlock(rx, f, client, HintProbes(render, svcParams[i..]))
    {
      assert svcParams[i..][1..] == svcParams[i + 1..];
      if svcParams[i].Hint? {
        hit := CheckIps(rx, f, client, svcParams[i].ips, render);
        FirstBlockAppend(rx, f, client, IpProbes(render, svcParams[i].ips), HintProbes(render, svcParams[i + 1..]));
        if hit.Some? {
          return;
        }
      } else {
        assert [] + HintProbes(render, svcParams[i + 1..]) == HintProbes(render, svcParams[i + 1..]);
      }
    }
    hit := None;
  }

  method CheckData(rx: RegexEngine, f: Filter, client: ClientInfo, d: RData, render: Render) returns (hit: Option<nat>)
    requires ValidFilter(f)
    ensures hit == FirstBlock(rx, f, client, ProbesOf(render, d))
  {
    match d {
      case Cname(target) => hit := CheckProbe(rx, f, client, Probe(TrimTrailingDots(target), "CNAME"));
      case A(ip) => hit := CheckProbe(rx, f, client, Probe(render(ip), "A"));
      case Aaaa(ip) => hit := CheckProbe(rx, f, client, Probe(render(ip), "AAAA"));
      case Service(svcParams) => hit := CheckHints(rx, f, client, svcParams, render);
      case OtherData => hit := None;
    }
  }

  /** An answer is blocked by its first record with a blocked name or address. */
  method FilterAnswers(rx: RegexEngine, f: Filter, client: ClientInfo, answers: seq<RData>, render: Render) returns (hit: Option<nat>)
    requires ValidFilter(f)
    ensures hit == FirstBlock(rx, f, client, Probes(render, answers))
  {
    for i := 0 to |answers|
      invariant FirstBlock(rx, f, client, Probes(render, answers)) == FirstBlock(rx, f, client, Probes(render, answers[i..]))
    {
      hit := CheckData(rx, f, client, answers[i], render);
      assert answers[i..][1..] == answers[i + 1..];
      FirstBlockAppend(rx, f, client, ProbesOf(render, answers[i]), Probes(render, answers[i + 1..]));
      if hit.Some? {
        return;
      }
    }
    hit := None;
  }

  // ---- when recompiling the same list cannot change the outcome ----

  ghost predicate AsciiProbes(probes: seq<Probe>) {
    forall i :: 0 <= i < |probes| ==> IsAscii(Normalize(probes[i].name))
  }

  /** No suffixes of one probed name share a hash. */
  ghost predicate ApartOn(f: Filter, probes: seq<Probe>) {
    forall i :: 0 <= i < |probes| ==> Apart(f.engine.hash, Normalize(probes[i].name))
  }

  /** Compilations considered: all of them, or those without collisions among the probed names. */
  ghost predicate Considered(f: Filter, probes: seq<Probe>, apart: bool) {
    ValidFilter(f) && (apart ==> ApartOn(f, probes))
  }

  ghost predicate MixedProbe(rx: RegexEngine, f: Filter, client: ClientInfo, p: Probe, apart: bool) {
    Mixed(rx, f.rules, QueryOf(p, client), apart)
  }

  /** No probe is open between a block and a rewrite, or some probe that is not open is blocked. */
  ghost predicate Unambiguous(rx: RegexEngine, f: Filter, client: ClientInfo, probes: seq<Probe>, apart: bool)
    requires ValidEngine(f.engine)
  {
    || (forall i :: 0 <= i < |probes| ==> !MixedProbe(rx, f, client, probes[i], apart))
    || (exists i :: 0 <= i < |probes| && !MixedProbe(rx, f, client, probes[i], apart) && ProbeBlock(rx, f, client, probes[i]).Some?)
  }

  /** A single probe open between a block and a rewrite is ambiguous. */
  lemma {:induction false} MixedIsAmbiguous(rx: RegexEngine, f: Filter, client: ClientInfo, p: Probe, apart: bool)
    requires ValidEngine(f.engine) && MixedProbe(rx, f, client, p, apart)
    ensures !Unambiguous(rx, f, client, [p], apart)
  {
    var probes := [p];
    assert MixedProbe(rx, f, client, probes[0], apart);
  }

  ghost predicate SameList(f: Filter, g: Filter) {
    f.rules == g.rules && f.fits == g.fits
  }

  lemma {:induction false} UnmixedProbesAgree(rx: RegexEngine, f: Filter, g: Filter, client: ClientInfo, p: Probe, apart: bool)
    requires ValidFilter(f) && ValidFilter(g) && SameList(f, g) && IsAscii(Normalize(p.name))
    requires apart ==> Apart(f.engine.hash, Normalize(p.name)) && Apart(g.engine.hash, Normalize(p.name))
    requires !MixedProbe(rx, f, client, p, apart)
    ensures ProbeBlock(rx, f, client, p).Some? == ProbeBlock(rx, g, client, p).Some?
  {
    UnmixedListsAgree(rx, f.engine, g.engine, f.rules, f.fits, QueryOf(p, client), apart);
  }

  /** Recompiling the list does not change whether an unambiguous answer is blocked. */
  lemma {:induction false} UnambiguousAgrees(rx: RegexEngine, f: Filter, g: Filter, client: ClientInfo, probes: seq<Probe>, apart: bool)
    requires Considered(f, probes, apart) && Considered(g, probes, apart) && SameList(f, g) && AsciiProbes(probes)
    requires Unambiguous(rx, f, client, probes, apart)
    ensures SomeBlocked(rx, f, client, probes) == SomeBlocked(rx, g, client, probes)
  {
    forall i | 0 <= i < |probes| && !MixedProbe(rx, f, client, probes[i], apart)
      ensures ProbeBlock(rx, f, client, probes[i]).Some? == ProbeBlock(rx, g, client, probes[i]).Some?
    {
      UnmixedProbesAgree(rx, f, g, client, probes[i], apart);
    }
  }

  // ---- and when it can ----

  function IsRewrite(rules: seq<BuildRule>): nat -> bool {
    (id: nat) => id < |rules| && rules[id].rule.action == Rewrite
  }

  /** A compilation that prefers rewrites in every bucket. */
  function RewritesFirst(e: Engine, rules: seq<BuildRule>, names: seq<string>): Engine {
    Arrange(e, rules, names, FirstThose(IsRewrite(rules), |rules|))
  }

  lemma RewritesFirstIsBuilt(e: Engine, rules: seq<BuildRule>, fits: SizeLimit, names: seq<string>)
    requires Built(e, rules, fits)
    ensures Built(RewritesFirst(e, rules, names), rules, fits)
  {
    FirstThosePermutes(IsRewrite(rules), |rules|);
    ArrangedIsBuilt(e, rules, fits, names, FirstThose(IsRewrite(rules), |rules|));
  }

  lemma {:induction false} RewriteFound(rx: RegexEngine, e: Engine, rules: seq<BuildRule>, q: Query, r: nat, names: seq<string>, apart: bool)
    requires Compiled(RewritesFirst(e, rules, names), rules) && WellFormed(rules) && IsAscii(q.name)
    requires Decisive(rx, rules, q, r, apart) && rules[r].rule.action == Rewrite && Separates(names, q.name, apart)
    ensures !BlockedBy(rules, CheckWinner(rx, RewritesFirst(e, rules, names), q))
  {
    var front, back := Those(IsRewrite(rules), true, |rules|), Those(IsRewrite(rules), false, |rules|);
    var p, hash := rules[r].rule.pattern, Numbering(names);
    var h := hash(p.domain);
    ArrangedDecides(rx, e, rules, q, r, names, front + back, apart);
    PickAppend(rules, hash, h, p.Exact?, front, back);
    RewritesPicked(rules, hash, h, p.Exact?, front, r);
    FirstInFront(rx, rules, q, Pick(rules, hash, h, p.Exact?, front), Pick(rules, hash, h, p.Exact?, back), r);
  }

  lemma RewritesPicked(rules: seq<BuildRule>, hash: string -> int, h: int, exact: bool, front: seq<nat>, r: nat)
    requires front == Those(IsRewrite(rules), true, |rules|)
    requires Picked(rules, hash, h, exact, r) && rules[r].rule.action == Rewrite
    ensures r in Pick(rules, hash, h, exact, front)
    ensures forall id :: id in Pick(rules, hash, h, exact, front) ==> id < |rules| && rules[id].rule.action == Rewrite
  {
    assert IsRewrite(rules)(r);
    forall id: nat | id in front ensures id < |rules| && rules[id].rule.action == Rewrite {
      assert IsRewrite(rules)(id);
    }
  }

  /** There, a decisive rewrite leaves the decision to a rewrite. */
  lemma {:induction false} RewriteWins(rx: RegexEngine, e: Engine, rules: seq<BuildRule>, fits: SizeLimit, q: Query, r: nat, names: seq<string>, apart: bool)
    requires Built(e, rules, fits) && WellFormed(rules) && IsAscii(q.name)
    requires Decisive(rx, rules, q, r, apart) && rules[r].rule.action == Rewrite && Separates(names, q.name, apart)
    ensures Built(RewritesFirst(e, rules, names), rules, fits)
    ensures !BlockedBy(rules, CheckWinner(rx, RewritesFirst(e, rules, names), q))
  {
    RewritesFirstIsBuilt(e, rules, fits, names);
    RewriteFound(rx, e, rules, q, r, names, apart);
  }

  lemma FirstInFront(rx: RegexEngine, rules: seq<BuildRule>, q: Query, front: seq<nat>, back: seq<nat>, r: nat)
    requires IsWinner(rx, rules, q, r) && r in front && forall id :: id in front ==> id < |rules| && rules[id].rule.action == Rewrite
    ensures !BlockedBy(rules, FirstTop(rx, rules, q, front + back))
  {
    FirstTopAppend(rx, rules, q, front, back);
    var k :| 0 <= k < |front| && front[k] == r;
  }

  /** Every two recompilations of the list block the answer alike. */
  ghost predicate RecompilationsAgree(rx: RegexEngine, f: Filter, client: ClientInfo, probes: seq<Probe>, apart: bool) {
    forall g, h | Considered(g, probes, apart) && Considered(h, probes, apart) && SameList(f, g) && SameList(f, h) ::
      SomeBlocked(rx, g, client, probes) == SomeBlocked(rx, h, client, probes)
  }

  function SuffixesOf(probes: seq<Probe>): seq<string> {
    if probes == [] then [] else DotSuffixes(Normalize(probes[0].name)) + SuffixesOf(probes[1..])
  }

  lemma {:induction false} SuffixesOfIn(probes: seq<Probe>, i: nat, s: string)
    requires i < |probes| && s in DotSuffixes(Normalize(probes[i].name))
    ensures s in SuffixesOf(probes)
    decreases |probes|
  {
    var own, rest := DotSuffixes(Normalize(probes[0].name)), SuffixesOf(probes[1..]);
    if i > 0 {
      SuffixesOfIn(probes[1..], i - 1, s);
      assert s in rest;
    }
    assert s in own + rest;
  }

  function NamesOf(probes: seq<Probe>, apart: bool): seq<string> {
    if apart then SuffixesOf(probes) else []
  }

  lemma NamesSeparate(probes: seq<Probe>, apart: bool, i: nat)
    requires i < |probes|
    ensures Separates(NamesOf(probes, apart), Normalize(probes[i].name), apart)
  {
    if apart {
      forall s | s in DotSuffixes(Normalize(probes[i].name)) ensures s in NamesOf(probes, apart) {
        SuffixesOfIn(probes, i, s);
      }
    }
  }

  lemma ArrangedIsConsidered(f: Filter, g: Filter, probes: seq<Probe>, apart: bool, ids: seq<nat>)
    requires ValidFilter(f) && Permutes(ids, |f.rules|)
    requires g == Filter(f.rules, f.fits, Arrange(f.engine, f.rules, NamesOf(probes, apart), ids))
    ensures Considered(g, probes, apart) && SameList(f, g)
  {
    ArrangedIsBuilt(f.engine, f.rules, f.fits, NamesOf(probes, apart), ids);
    if apart {
      forall i | 0 <= i < |probes| ensures Apart(g.engine.hash, Normalize(probes[i].name)) {
        NamesSeparate(probes, apart, i);
        NumberingIsApart(NamesOf(probes, apart), Normalize(probes[i].name));
      }
    }
  }

  lemma {:induction false} MixedNotBlocked(rx: RegexEngine, f: Filter, g: Filter, client: ClientInfo, probes: seq<Probe>, apart: bool, i: nat)
    requires ValidFilter(f) && ValidFilter(g) && i < |probes| && IsAscii(Normalize(probes[i].name))
    requires g == Filter(f.rules, f.fits, RewritesFirst(f.engine, f.rules, NamesOf(probes, apart)))
    requires MixedProbe(rx, f, client, probes[i], apart)
    ensures ProbeBlock(rx, g, client, probes[i]).None?
  {
    var q := QueryOf(probes[i], client);
    var b: nat, r: nat :| && Decisive(rx, f.rules, q, b, apart) && f.rules[b].rule.action == Block
                          && Decisive(rx, f.rules, q, r, apart) && f.rules[r].rule.action == Rewrite;
    NamesSeparate(probes, apart, i);
    RewriteWins(rx, f.engine, f.rules, f.fits, q, r, NamesOf(probes, apart), apart);
  }

  lemma {:induction false} NothingBlockedRewritesFirst(rx: RegexEngine, f: Filter, g: Filter, client: ClientInfo, probes: seq<Probe>, apart: bool)
    requires Considered(f, probes, apart) && AsciiProbes(probes) && !Unambiguous(rx, f, client, probes, apart)
    requires g == Filter(f.rules, f.fits, RewritesFirst(f.engine, f.rules, NamesOf(probes, apart)))
    ensures Considered(g, probes, apart) && SameList(f, g) && !SomeBlocked(rx, g, client, probes)
  {
    FirstThosePermutes(IsRewrite(f.rules), |f.rules|);
    ArrangedIsConsidered(f, g, probes, apart, FirstThose(IsRewrite(f.rules), |f.rules|));
    forall i | 0 <= i < |probes| ensures ProbeBlock(rx, g, client, probes[i]).None? {
      if MixedProbe(rx, f, client, probes[i], apart) {
        MixedNotBlocked(rx, f, g, client, probes, apart, i);
      } else {
        UnmixedProbesAgree(rx, f, g, client, probes[i], apart);
      }
    }
  }

  lemma {:induction false} SomethingBlockedFirst(rx: RegexEngine, f: Filter, client: ClientInfo, probes: seq<Probe>, apart: bool, i: nat) returns (g: Filter)
    requires ValidFilter(f) && AsciiProbes(probes) && i < |probes| && MixedProbe(rx, f, client, probes[i], apart)
    ensures Considered(g, probes, apart) && SameList(f, g) && SomeBlocked(rx, g, client, probes)
  {
    var q, names := QueryOf(probes[i], client), NamesOf(probes, apart);
    var b: nat, r: nat :| && Decisive(rx, f.rules, q, b, apart) && f.rules[b].rule.action == Block
                          && Decisive(rx, f.rules, q, r, apart) && f.rules[r].rule.action == Rewrite;
    g := Filter(f.rules, f.fits, PutFirst(f.engine, f.rules, names, b));
    FirstThosePermutes(Only(b), |f.rules|);
    ArrangedIsConsidered(f, g, probes, apart, FirstThose(Only(b), |f.rules|));
    NamesSeparate(probes, apart, i);
    BlockFirstBlocks(rx, f, g, client, probes[i], b, names, apart);
  }

  lemma {:induction false} BlockFirstBlocks(rx: RegexEngine, f: Filter, g: Filter, client: ClientInfo, p: Probe, b: nat, names: seq<string>, apart: bool)
    requires g == Filter(f.rules, f.fits, PutFirst(f.engine, f.rules, names, b)) && ValidFilter(g) && IsAscii(Normalize(p.name))
    requires Decisive(rx, f.rules, QueryOf(p, client), b, apart) && f.rules[b].rule.action == Block
    requires Separates(names, Normalize(p.name), apart)
    ensures ProbeBlock(rx, g, client, p).Some?
  {
    PutFirstWins(rx, f.engine, f.rules, QueryOf(p, client), b, names, apart);
  }

  lemma {:induction false} AmbiguousDisagrees(rx: RegexEngine, f: Filter, client: ClientInfo, probes: seq<Probe>, apart: bool)
    returns (g: Filter, h: Filter)
    requires Considered(f, probes, apart) && AsciiProbes(probes) && !Unambiguous(rx, f, client, probes, apart)
    ensures Considered(g, probes, apart) && SameList(f, g) && SomeBlocked(rx, g, client, probes)
    ensures Considered(h, probes, apart) && SameList(f, h) && !SomeBlocked(rx, h, client, probes)
  {
    var i :| 0 <= i < |probes| && MixedProbe(rx, f, client, probes[i], apart);
    g := SomethingBlockedFirst(rx, f, client, probes, apart, i);
    h := Filter(f.rules, f.fits, RewritesFirst(f.engine, f.rules, NamesOf(probes, apart)));
    NothingBlockedRewritesFirst(rx, f, h, client, probes, apart);
  }

  lemma {:induction false} UnambiguousRecompilesAlike(rx: RegexEngine, f: Filter, client: ClientInfo, probes: seq<Probe>, apart: bool)
    requires Considered(f, probes, apart) && AsciiProbes(probes) && Unambiguous(rx, f, client, probes, apart)
    ensures RecompilationsAgree(rx, f, client, probes, apart)
  {
    forall g, h | Considered(g, probes, apart) && Considered(h, probes, apart) && SameList(f, g) && SameList(f, h)
      ensures SomeBlocked(rx, g, client, probes) == SomeBlocked(rx, h, client, probes)
    {
      UnambiguousAgrees(rx, f, g, client, probes, apart);
      UnambiguousAgrees(rx, f, h, client, probes, apart);
    }
  }

  /** Whether an answer is blocked is a property of the rule list alone if and only if it is unambiguous. */
  lemma {:induction false} RecompilationsAgreeIff(rx: RegexEngine, f: Filter, client: ClientInfo, probes: seq<Probe>, apart: bool)
    requires Considered(f, probes, apart) && AsciiProbes(probes)
    ensures RecompilationsAgree(rx, f, client, probes, apart) <==> Unambiguous(rx, f, client, probes, apart)
  {
    if Unambiguous(rx, f, client, probes, apart) {
      UnambiguousRecompilesAlike(rx, f, client, probes, apart);
    } else {
      var g, h := AmbiguousDisagrees(rx, f, client, probes, apart);
    }
  }
}
