/** Querying a compiled filter: the candidate loops, and the verdict they lead to. */
module FilterCheck {
  import opened Wrappers
  import opened Domains
  import opened Tokens
  import opened Rules
  import opened FilterEngine
  import opened FilterCorrect

  method FindDot(s: string) returns (i: nat)
    ensures i == FirstDot(s)
  {
    i := 0;
    while i < |s| && s[i] != '.'
      invariant 0 <= i <= |s|
      invariant i + FirstDot(s[i..]) == FirstDot(s)
    {
      assert s[i..][1..] == s[i + 1..];
      i := i + 1;
    }
  }

  method CollectSuffixes(e: Engine, name: string) returns (out: seq<nat>)
    requires ValidEngine(e)
    ensures out == SuffixHits(e, DotSuffixes(name))
  {
    ghost var all := SuffixHits(e, DotSuffixes(name));
    out := Bucket(e.subdomain, e.hash(name));
    SuffixHitsOf(e, name);
    var hay := name;
    var i := FindDot(hay);
    while i < |hay|
      invariant i == FirstDot(hay)
      invariant out + ParentHits(e, hay) == all
      decreases |hay|
    {
      var parent := hay[i + 1..];
      SuffixHitsOf(e, parent);
      assert out + (Bucket(e.subdomain, e.hash(parent)) + ParentHits(e, parent)) == all;
      out := out + Bucket(e.subdomain, e.hash(parent));
      hay := parent;
      i := FindDot(hay);
    }
  }

  /** Hits of the suffixes past the first dot. */
  function ParentHits(e: Engine, hay: string): seq<nat>
    requires ValidEngine(e)
  {
    var i := FirstDot(hay);
    if i < |hay| then SuffixHits(e, DotSuffixes(hay[i + 1..])) else []
  }

  lemma SuffixHitsCons(e: Engine, s: string, rest: seq<string>)
    requires ValidEngine(e)
    ensures SuffixHits(e, [s] + rest) == Bucket(e.subdomain, e.hash(s)) + SuffixHits(e, rest)
  {
    assert ([s] + rest)[1..] == rest;
  }

  lemma SuffixHitsOf(e: Engine, hay: string)
    requires ValidEngine(e)
    ensures SuffixHits(e, DotSuffixes(hay)) == Bucket(e.subdomain, e.hash(hay)) + ParentHits(e, hay)
  {
    var i := FirstDot(hay);
    DotSuffixesStep(hay, i);
    SuffixHitsCons(e, hay, if i < |hay| then DotSuffixes(hay[i + 1..]) else []);
  }

  method CollectDomain(e: Engine, name: string) returns (out: seq<nat>)
    requires ValidEngine(e)
    ensures out == DomainCandidates(e, name)
  {
    out := [];
    if e.exact.hits != [] {
      out := out + Bucket(e.exact, e.hash(name));
    }
    if e.subdomain.hits != [] {
      var more := CollectSuffixes(e, name);
      out := out + more;
    } else {
      NoSuffixHits(e, DotSuffixes(name));
    }
  }

  lemma {:induction false} NoSuffixHits(e: Engine, suffixes: seq<string>)
    requires ValidEngine(e) && e.subdomain.hits == []
    ensures SuffixHits(e, suffixes) == []
  {
    if suffixes != [] {
      NoSuffixHits(e, suffixes[1..]);
    }
  }

  method SetMatches(rx: RegexEngine, s: RegexSet, name: string) returns (out: seq<nat>)
    requires |s.programs| == |s.ids|
    ensures out == SetHits(rx, s.programs, s.ids, name)
  {
    out := [];
    var i := 0;
    while i < |s.ids|
      invariant 0 <= i <= |s.ids|
      invariant out + SetHits(rx, s.programs[i..], s.ids[i..], name) == SetHits(rx, s.programs, s.ids, name)
    {
      if IsMatch(rx, s.programs[i], name) {
        out := out + [s.ids[i]];
      }
      i := i + 1;
    }
  }

  method CheckIds(rx: RegexEngine, e: Engine, ids: seq<nat>, name: string) returns (out: seq<nat>)
    requires ValidEngine(e) && ValidIds(e, ids)
    ensures out == MatchingIds(rx, e, ids, name)
  {
    ghost var all := MatchingIds(rx, e, ids, name);
    out := [];
    var i := 0;
    while i < |ids|
      invariant 0 <= i <= |ids|
      invariant out + MatchingIds(rx, e, ids[i..], name) == all
    {
      var r := e.records[ids[i]];
      assert ids[i..][0] == ids[i] && ids[i..][1..] == ids[i + 1..];
      if IsScanKind(r.kind) && IsMatch(rx, e.programs[r.domOrRe], name) {
        out := out + [ids[i]];
      }
      i := i + 1;
    }
  }

  lemma TokenStep(rx: RegexEngine, e: Engine, g: ScanGroup, tokens: seq<Token>, name: string, i: nat)
    requires ValidEngine(e) && ValidGroup(e, g) && i < |tokens|
    ensures TokenHits(rx, e, g, tokens[i..], name)
            == (if tokens[i] in g.index then MatchingIds(rx, e, g.index[tokens[i]], name) else [])
               + TokenHits(rx, e, g, tokens[i + 1..], name)
  {
    assert tokens[i..][1..] == tokens[i + 1..];
  }

  lemma Regroup(a: seq<nat>, b: seq<nat>, c: seq<nat>)
    ensures a + (b + c) == (a + b) + c
  {
  }

  method ScanTokens(rx: RegexEngine, e: Engine, g: ScanGroup, name: string, tokens: seq<Token>) returns (out: seq<nat>)
    requires ValidEngine(e) && ValidGroup(e, g)
    ensures out == TokenHits(rx, e, g, tokens, name)
  {
    ghost var all := TokenHits(rx, e, g, tokens, name);
    out := [];
    var i := 0;
    while i < |tokens|
      invariant 0 <= i <= |tokens|
      invariant out + TokenHits(rx, e, g, tokens[i..], name) == all
    {
      TokenStep(rx, e, g, tokens, name, i);
      var hits := [];
      if tokens[i] in g.index {
        hits := CheckIds(rx, e, g.index[tokens[i]], name);
      }
      Regroup(out, hits, TokenHits(rx, e, g, tokens[i + 1..], name));
      out := out + hits;
      i := i + 1;
    }
  }

  lemma {:induction false} NoTokenHits(rx: RegexEngine, e: Engine, g: ScanGroup, tokens: seq<Token>, name: string)
    requires ValidEngine(e) && ValidGroup(e, g) && g.index == map[]
    ensures TokenHits(rx, e, g, tokens, name) == []
  {
    if tokens != [] {
      NoTokenHits(rx, e, g, tokens[1..], name);
    }
  }

  method ScanGroupFor(rx: RegexEngine, e: Engine, g: ScanGroup, name: string, tokens: seq<Token>) returns (out: seq<nat>)
    requires ValidEngine(e) && ValidGroup(e, g)
    ensures out == ScanCandidates(rx, e, g, name, tokens)
  {
    out := [];
    var i := 0;
    while i < |g.sets|
      invariant 0 <= i <= |g.sets|
      invariant out + AllSetHits(rx, g.sets[i..], name) == AllSetHits(rx, g.sets, name)
    {
      assert g.sets[i] in g.sets;
      var hits := SetMatches(rx, g.sets[i], name);
      assert g.sets[i..][1..] == g.sets[i + 1..];
      Regroup(out, hits, AllSetHits(rx, g.sets[i + 1..], name));
      out := out + hits;
      i := i + 1;
    }
    var alone := CheckIds(rx, e, g.individual, name);
    out := out + alone;
    if g.index != map[] {
      var filed := ScanTokens(rx, e, g, name, tokens);
      out := out + filed;
    } else {
      NoTokenHits(rx, e, g, tokens, name);
    }
  }

  /** Keeps `best` and its priority in step over the candidates. */
  method ConsiderAll(e: Engine, ids: seq<nat>, q: Query, best0: Option<nat>, prio0: nat) returns (best: Option<nat>, prio: nat)
    requires ValidEngine(e) && ValidIds(e, ids) && (best0.Some? ==> best0.value < |e.records|)
    requires best0.Some? ==> prio0 == IdPriority(e, best0.value)
    ensures best == Consider(e, ids, q, best0)
    ensures best.Some? ==> prio == IdPriority(e, best.value)
  {
    best, prio := best0, prio0;
    var i := 0;
    while i < |ids|
      invariant 0 <= i <= |ids|
      invariant best.Some? ==> best.value < |e.records| && prio == IdPriority(e, best.value)
      invariant Consider(e, ids[i..], q, best) == Consider(e, ids, q, best0)
    {
      var id := ids[i];
      var r := e.records[id];
      assert ids[i..][0] == id && ids[i..][1..] == ids[i + 1..];
      if DomainMatches(e, r, q.name) && Applicable(e, r, q) {
        var p := RecordPriority(e, r);
        if best.None? || p > prio {
          best, prio := Some(id), p;
        }
      }
      i := i + 1;
    }
  }

  method NormalizeName(domain: string) returns (name: string)
    ensures name == Normalize(domain)
  {
    if (exists k :: 0 <= k < |domain| && 'A' <= domain[k] <= 'Z') || (domain != [] && domain[|domain| - 1] == '.') {
      name := Lower(TrimTrailingDots(domain));
    } else {
      name := domain;
      assert Lower(domain) == domain;
    }
  }

  datatype Verdict = Allowed(exception: Option<nat>) | Blocked(rule: nat) | Rewritten(rule: nat, data: string)

  /** The lookup: both phases, on the normalised name. */
  method FindRule(rx: RegexEngine, e: Engine, q: Query) returns (best: Option<nat>)
    requires ValidEngine(e)
    ensures best == CheckWinner(rx, e, q)
  {
    var candidates := CollectDomain(e, q.name);
    var overriding := ScanGroupFor(rx, e, e.overrideScan, q.name, []);
    candidates := candidates + overriding;
    assert candidates == FirstPhase(rx, e, q.name);
    var prio: nat;
    best, prio := ConsiderAll(e, candidates, q, None, 0);
    if best.None? && (e.blockScan.index != map[] || e.blockScan.sets != [] || e.blockScan.individual != []) {
      var toks: seq<Token> := [];
      if e.blockScan.index != map[] {
        toks := ForEachQueryToken(q.name);
      } else {
        NoTokenHits(rx, e, e.blockScan, QueryTokens(q.name), q.name);
      }
      candidates := ScanGroupFor(rx, e, e.blockScan, q.name, toks);
      assert candidates == BlockPhase(rx, e, q.name);
      best, prio := ConsiderAll(e, candidates, q, best, prio);
    } else if best.None? {
      NoTokenHits(rx, e, e.blockScan, QueryTokens(q.name), q.name);
    }
  }

  /** A rewrite rule carries its data; the parser sets the action and the data together. */
  ghost predicate RewritesCarryData(rules: seq<BuildRule>) {
    forall id :: 0 <= id < |rules| && rules[id].rule.action == Rewrite ==>
      rules[id].rule.mods.Some? && rules[id].rule.mods.value.rewrite.Some?
  }

  /** `check`: the verdict is that of a highest-priority rule among all that hit, or allow when none does. */
  method Check(rx: RegexEngine, e: Engine, ghost rules: seq<BuildRule>, domain: string, rtype: string, client: ClientInfo)
    returns (v: Verdict)
    requires Compiled(e, rules) && WellFormed(rules) && RewritesCarryData(rules) && IsAscii(domain)
    ensures var q := Query(Normalize(domain), rtype, client);
            match v
            case Allowed(None) => forall id :: 0 <= id < |rules| ==> !Hits(rx, rules[id].rule, q)
            case Allowed(Some(id)) => IsWinner(rx, rules, q, id) && rules[id].rule.action == Allow
            case Blocked(id) => IsWinner(rx, rules, q, id) && rules[id].rule.action == Block
            case Rewritten(id, data) =>
              && IsWinner(rx, rules, q, id) && rules[id].rule.action == Rewrite
              && rules[id].rule.mods.Some? && rules[id].rule.mods.value.rewrite == Some(data)
  {
    var name := NormalizeName(domain);
    var q := Query(name, rtype, client);
    var best := FindRule(rx, e, q);
    NormalizeIsAscii(domain);
    CheckDecides(rx, e, rules, q);
    if best.None? {
      return Allowed(None);
    }
    v := VerdictOf(e, rules, best.value);
  }

  lemma NormalizeIsAscii(domain: string)
    requires IsAscii(domain)
    ensures IsAscii(Normalize(domain))
  {
    var name := Normalize(domain);
    assert forall k :: 0 <= k < |name| ==> name[k] == LowerChar(TrimTrailingDots(domain)[k]) == LowerChar(domain[k]);
  }

  method VerdictOf(e: Engine, ghost rules: seq<BuildRule>, id: nat) returns (v: Verdict)
    requires Compiled(e, rules) && RewritesCarryData(rules) && id < |rules|
    ensures match rules[id].rule.action
            case Allow => v == Allowed(Some(id))
            case Block => v == Blocked(id)
            case Rewrite => v == Rewritten(id, rules[id].rule.mods.value.rewrite.value)
  {
    var r := e.records[id];
    assert RecordFor(e, rules[id].rule, r);
    match r.action {
      case Allow => v := Allowed(Some(id));
      case Block => v := Blocked(id);
      case Rewrite =>
        var mods := ModsOf(e, r);
        v := Rewritten(id, mods.value.rewrite.value);
    }
  }
}
