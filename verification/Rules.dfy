/** Filtering rules, their modifiers, and what it means for a rule to hit a query. */
module Rules {
  import opened Wrappers
  import opened Domains
  import opened Tokens
  import opened Globs

  datatype Action = Block | Allow | Rewrite

  datatype Pattern =
    | Subdomain(domain: string)
    | Exact(domain: string)
    | Wildcard(glob: Glob)
    | Regex(source: string)

  /** The regular-expression library: does `source` match somewhere in `name`? */
  type RegexEngine = (string, string) -> bool

  datatype Ip = Ip(v6: bool, bits: nat)

  datatype ClientMatch =
    | OneIp(ip: Ip)
    | Net(first: Ip, last: Ip)
    | ClientName(name: string)

  datatype ClientInfo = ClientInfo(ip: Option<Ip>, name: Option<string>, tags: seq<string>)

  datatype DnsTypeFilter = DnsTypeFilter(included: seq<string>, excluded: seq<string>) {
    predicate Matches(rtype: string) {
      rtype !in excluded && (included == [] || rtype in included)
    }
  }

  datatype ClientFilter = ClientFilter(included: seq<ClientMatch>, excluded: seq<ClientMatch>) {
    static predicate EntryMatches(m: ClientMatch, client: ClientInfo) {
      match m
      case OneIp(ip) => client.ip == Some(ip)
      case Net(first, last) =>
        client.ip.Some? && client.ip.value.v6 == first.v6 && first.bits <= client.ip.value.bits <= last.bits
      case ClientName(n) => client.name == Some(n)
    }

    predicate Matches(client: ClientInfo) {
      && (forall m | m in excluded :: !EntryMatches(m, client))
      && (included == [] || exists m | m in included :: EntryMatches(m, client))
    }
  }

  datatype CtagFilter = CtagFilter(included: seq<string>, excluded: seq<string>) {
    predicate Matches(tags: seq<string>) {
      && (forall t | t in excluded :: t !in tags)
      && (included == [] || exists t | t in included :: t in tags)
    }
  }

  datatype RuleMods = RuleMods(
    important: bool,
    dnstype: Option<DnsTypeFilter>,
    client: Option<ClientFilter>,
    ctag: Option<CtagFilter>,
    denyallow: seq<string>,
    rewrite: Option<string>)

  datatype Rule = Rule(raw: string, action: Action, pattern: Pattern, mods: Option<RuleMods>, listId: nat)

  /** A rule with the tokens its parser computed for the reverse index. */
  datatype BuildRule = BuildRule(rule: Rule, signature: string, indexTokens: seq<Token>)

  datatype Query = Query(name: string, rtype: string, client: ClientInfo)

  function PriorityOf(action: Action, mods: Option<RuleMods>): nat {
    (if action == Allow then 2 else 1) + (if mods.Some? && mods.value.important then 100 else 0)
  }

  function Priority(r: Rule): nat {
    PriorityOf(r.action, r.mods)
  }

  /** The modifier checks, in the order the code makes them. */
  predicate ModsApply(action: Action, mods: Option<RuleMods>, q: Query) {
    mods.None? ||
    (var m := mods.value;
     && (m.dnstype.Some? ==> m.dnstype.value.Matches(q.rtype))
     && (m.client.Some? ==> m.client.value.Matches(q.client))
     && (m.ctag.Some? ==> m.ctag.value.Matches(q.client.tags))
     && !(action != Allow && exists base | base in m.denyallow :: IsSubdomainOf(q.name, base)))
  }

  predicate PatternMatches(rx: RegexEngine, p: Pattern, name: string) {
    match p
    case Subdomain(d) => IsSubdomainOf(name, d)
    case Exact(d) => name == d
    case Wildcard(g) => GlobMatches(g, name)
    case Regex(source) => rx(source, name)
  }

  /** The rule matches the name and its modifiers admit the query. */
  predicate Hits(rx: RegexEngine, r: Rule, q: Query) {
    PatternMatches(rx, r.pattern, q.name) && ModsApply(r.action, r.mods, q)
  }

  predicate DependsOnClient(r: Rule) {
    r.mods.Some? && (r.mods.value.client.Some? || r.mods.value.ctag.Some?)
  }

  /** Whether a wildcard or regex rule can outrank a plain domain block. */
  predicate OverrideCapable(r: Rule) {
    r.action == Allow || (r.mods.Some? && r.mods.value.important)
  }

  lemma OverridePriority(r: Rule)
    ensures OverrideCapable(r) <==> Priority(r) > 1
    ensures Priority(r) >= 1
  {
  }

  /** `id` hits the query and nothing that hits it ranks higher. */
  ghost predicate IsWinner(rx: RegexEngine, rules: seq<BuildRule>, q: Query, id: nat) {
    && id < |rules| && Hits(rx, rules[id].rule, q)
    && forall k :: 0 <= k < |rules| && Hits(rx, rules[k].rule, q) ==> Priority(rules[k].rule) <= Priority(rules[id].rule)
  }

  /** The reference: scan every rule and keep the first of the highest priority. */
  function LinearScan(rx: RegexEngine, rules: seq<BuildRule>, q: Query): Option<nat> {
    if rules == [] then None
    else
      var n := |rules| - 1;
      var best := LinearScan(rx, rules[..n], q);
      if Hits(rx, rules[n].rule, q) && (best.None? || best.value >= n || Priority(rules[n].rule) > Priority(rules[best.value].rule))
      then Some(n) else best
  }

  lemma {:induction false} LinearScanFindsWinner(rx: RegexEngine, rules: seq<BuildRule>, q: Query)
    ensures match LinearScan(rx, rules, q)
            case None => forall k :: 0 <= k < |rules| ==> !Hits(rx, rules[k].rule, q)
            case Some(id) => IsWinner(rx, rules, q, id)
    decreases |rules|
  {
    if rules != [] {
      LinearScanFindsWinner(rx, rules[..|rules| - 1], q);
    }
  }
}
