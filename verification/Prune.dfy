/** Removal of plain blocks that an ancestor block already covers, and what it preserves. */
module Prune {
  import opened Wrappers
  import opened Domains
  import opened Rules
  import opened FilterEngine
  import opened FilterCorrect
  import opened BucketOrder
  import opened ScanOrder
  import opened FilterTies

  predicate IsPlainBlock(r: Rule) {
    r.action == Block && r.mods.None?
  }

  predicate IsSubsumer(br: BuildRule) {
    IsPlainBlock(br.rule) && br.rule.pattern.Subdomain?
  }

  function Subsumers(active: seq<BuildRule>): set<string> {
    set br | br in active && IsSubsumer(br) :: br.rule.pattern.domain
  }

  /** A plain block whose own name (for exact rules) or a proper parent is a subsumer. */
  predicate IsRedundant(br: BuildRule, subsumers: set<string>) {
    && IsPlainBlock(br.rule)
    && match br.rule.pattern
       case Subdomain(d) => exists s | s in DotSuffixes(d)[1..] :: s in subsumers
       case Exact(d) => d in subsumers || exists s | s in DotSuffixes(d)[1..] :: s in subsumers
       case _ => false
  }

  function Kept(active: seq<BuildRule>, subsumers: set<string>): seq<BuildRule> {
    if active == [] then []
    else (if IsRedundant(active[0], subsumers) then [] else [active[0]]) + Kept(active[1..], subsumers)
  }

  lemma {:induction false} KeptIn(active: seq<BuildRule>, subsumers: set<string>, br: BuildRule)
    ensures br in Kept(active, subsumers) <==> br in active && !IsRedundant(br, subsumers)
  {
    if active != [] {
      KeptIn(active[1..], subsumers, br);
    }
  }

  lemma {:induction false} KeptAll(active: seq<BuildRule>, subsumers: set<string>)
    requires subsumers == {}
    ensures Kept(active, subsumers) == active
  {
    if active != [] {
      KeptAll(active[1..], subsumers);
    }
  }

  /** The parent walk of `is_redundant`. */
  method HasSubsumedParent(d: string, subsumers: set<string>) returns (found: bool)
    ensures found <==> exists s :: s in DotSuffixes(d)[1..] && s in subsumers
  {
    var rest := d;
    while FirstDot(rest) < |rest|
      invariant (exists s :: s in DotSuffixes(rest)[1..] && s in subsumers) <==>
                (exists s :: s in DotSuffixes(d)[1..] && s in subsumers)
      decreases |rest|
    {
      var parent := rest[FirstDot(rest) + 1..];
      var tail := DotSuffixes(parent);
      assert DotSuffixes(rest)[1..] == tail;
      assert tail == [parent] + tail[1..];
      if parent in subsumers {
        assert parent in DotSuffixes(rest)[1..];
        return true;
      }
      rest := parent;
    }
    return false;
  }

  method CheckRedundant(br: BuildRule, subsumers: set<string>) returns (redundant: bool)
    ensures redundant == IsRedundant(br, subsumers)
  {
    if br.rule.action != Block || br.rule.mods.Some? {
      return false;
    }
    match br.rule.pattern {
      case Subdomain(d) =>
        redundant := HasSubsumedParent(d, subsumers);
      case Exact(d) =>
        if d in subsumers {
          return true;
        }
        redundant := HasSubsumedParent(d, subsumers);
      case _ =>
        return false;
    }
  }

  lemma {:induction false} KeptSnoc(active: seq<BuildRule>, br: BuildRule, subsumers: set<string>)
    ensures Kept(active + [br], subsumers) == Kept(active, subsumers) + (if IsRedundant(br, subsumers) then [] else [br])
    decreases |active|
  {
    if active == [] {
      assert [br][1..] == [];
    } else {
      assert (active + [br])[1..] == active[1..] + [br];
      KeptSnoc(active[1..], br, subsumers);
    }
  }

  method DecideAll(active: seq<BuildRule>, subsumers: set<string>) returns (keep: seq<bool>)
    ensures |keep| == |active|
    ensures forall k :: 0 <= k < |keep| ==> keep[k] == !IsRedundant(active[k], subsumers)
  {
    keep := [];
    while |keep| < |active|
      invariant |keep| <= |active|
      invariant forall k :: 0 <= k < |keep| ==> keep[k] == !IsRedundant(active[k], subsumers)
    {
      var redundant := CheckRedundant(active[|keep|], subsumers);
      keep := keep + [!redundant];
    }
  }

  /** Decides for every rule first, then retains in place by position. */
  method PruneRedundant(active: seq<BuildRule>) returns (kept: seq<BuildRule>)
    ensures kept == Kept(active, Subsumers(active))
  {
    var subsumers := Subsumers(active);
    if subsumers == {} {
      KeptAll(active, subsumers);
      return active;
    }
    var keep := DecideAll(active, subsumers);
    kept := [];
    var i := 0;
    while i < |active|
      invariant 0 <= i <= |active|
      invariant kept == Kept(active[..i], subsumers)
    {
      KeptSnoc(active[..i], active[i], subsumers);
      assert active[..i + 1] == active[..i] + [active[i]];
      if keep[i] {
        kept := kept + [active[i]];
      }
      i := i + 1;
    }
    assert active[..i] == active;
  }

  // ---- every pruned rule has a kept cover ----

  ghost predicate Covers(c: BuildRule, domain: string) {
    IsSubsumer(c) && IsSubdomainOf(domain, c.rule.pattern.domain)
  }

  lemma ConsTail(d: string, rest: seq<string>, s: string)
    requires s in ([d] + rest)[1..]
    ensures s in rest
  {
    assert ([d] + rest)[1..] == rest;
  }

  lemma ParentSuffixes(d: string, s: string, i: nat)
    requires s in DotSuffixes(d)[1..] && i == FirstDot(d)
    ensures i < |d| && s in DotSuffixes(d[i + 1..])
  {
    DotSuffixesStep(d, i);
    ConsTail(d, if i < |d| then DotSuffixes(d[i + 1..]) else [], s);
  }

  lemma ParentIsShorter(d: string, s: string)
    requires s in DotSuffixes(d)[1..]
    ensures |s| < |d| && IsSubdomainOf(d, s)
  {
    ParentSuffixes(d, s, FirstDot(d));
    SuffixWalkIsSubdomain(d[FirstDot(d) + 1..], s);
    assert s in DotSuffixes(d);
    SuffixWalkIsSubdomain(d, s);
  }

  /** By induction on the length of the name: following subsumers ends at a kept one. */
  lemma {:induction false} SubsumerHasKeptCover(active: seq<BuildRule>, d: string) returns (c: BuildRule)
    requires d in Subsumers(active)
    ensures c in Kept(active, Subsumers(active)) && Covers(c, d)
    decreases |d|
  {
    var subs := Subsumers(active);
    var br :| br in active && IsSubsumer(br) && br.rule.pattern.domain == d;
    if IsRedundant(br, subs) {
      var s :| s in DotSuffixes(d)[1..] && s in subs;
      ParentIsShorter(d, s);
      c := SubsumerHasKeptCover(active, s);
      SubdomainTransitive(d, s, c.rule.pattern.domain);
    } else {
      c := br;
      KeptIn(active, subs, br);
    }
  }

  lemma PrunedHasKeptCover(active: seq<BuildRule>, br: BuildRule) returns (c: BuildRule)
    requires br in active && IsRedundant(br, Subsumers(active))
    ensures c in Kept(active, Subsumers(active)) && Covers(c, br.rule.pattern.domain)
  {
    var subs := Subsumers(active);
    var d := br.rule.pattern.domain;
    if br.rule.pattern.Exact? && d in subs {
      c := SubsumerHasKeptCover(active, d);
    } else {
      var s :| s in DotSuffixes(d)[1..] && s in subs;
      ParentIsShorter(d, s);
      c := SubsumerHasKeptCover(active, s);
      SubdomainTransitive(d, s, c.rule.pattern.domain);
    }
  }

  ghost predicate SomeHit(rx: RegexEngine, rules: seq<BuildRule>, q: Query, p: nat) {
    exists id :: 0 <= id < |rules| && Hits(rx, rules[id].rule, q) && Priority(rules[id].rule) == p
  }

  /** Whatever a rule hits, some kept rule hits with the same priority and action. */
  lemma HitSurvives(rx: RegexEngine, active: seq<BuildRule>, q: Query, id: nat) returns (id': nat)
    requires id < |active| && Hits(rx, active[id].rule, q)
    ensures var kept := Kept(active, Subsumers(active));
            && id' < |kept| && Hits(rx, kept[id'].rule, q)
            && Priority(kept[id'].rule) == Priority(active[id].rule) && kept[id'].rule.action == active[id].rule.action
  {
    var kept := Kept(active, Subsumers(active));
    var br := active[id];
    KeptIn(active, Subsumers(active), br);
    var c := br;
    if br !in kept {
      c := PrunedHasKeptCover(active, br);
      SubdomainTransitive(q.name, br.rule.pattern.domain, c.rule.pattern.domain);
    }
    id' :| 0 <= id' < |kept| && kept[id'] == c;
  }

  lemma HitWasThere(rx: RegexEngine, active: seq<BuildRule>, q: Query, id: nat) returns (id': nat)
    requires var kept := Kept(active, Subsumers(active)); id < |kept| && Hits(rx, kept[id].rule, q)
    ensures id' < |active| && active[id'] == Kept(active, Subsumers(active))[id]
  {
    var kept := Kept(active, Subsumers(active));
    KeptIn(active, Subsumers(active), kept[id]);
    assert kept[id] in active;
    id' :| 0 <= id' < |active| && active[id'] == kept[id];
  }

  lemma PruningKeepsHits(rx: RegexEngine, active: seq<BuildRule>, q: Query, p: nat)
    ensures SomeHit(rx, active, q, p) <==> SomeHit(rx, Kept(active, Subsumers(active)), q, p)
  {
    if id :| 0 <= id < |active| && Hits(rx, active[id].rule, q) && Priority(active[id].rule) == p {
      var id' := HitSurvives(rx, active, q, id);
    }
    var kept := Kept(active, Subsumers(active));
    if id :| 0 <= id < |kept| && Hits(rx, kept[id].rule, q) && Priority(kept[id].rule) == p {
      var id' := HitWasThere(rx, active, q, id);
    }
  }

  lemma KeptIsWellFormed(active: seq<BuildRule>)
    requires WellFormed(active)
    ensures WellFormed(Kept(active, Subsumers(active)))
  {
    var kept := Kept(active, Subsumers(active));
    forall id | 0 <= id < |kept| ensures ParserTokens(kept[id]) && Representable(kept[id]) {
      KeptIn(active, Subsumers(active), kept[id]);
      assert kept[id] in active;
    }
  }

  /** The two compiled filters answer alike: same priority, and same action when no rewrite hits. */
  ghost predicate SameDecision(rx: RegexEngine, active: seq<BuildRule>, kept: seq<BuildRule>, q: Query, a: Option<nat>, b: Option<nat>) {
    && a.Some? == b.Some?
    && (a.Some? ==>
          && a.value < |active| && b.value < |kept|
          && Priority(active[a.value].rule) == Priority(kept[b.value].rule)
          && ((forall id :: 0 <= id < |active| && Hits(rx, active[id].rule, q) ==> active[id].rule.action != Rewrite) ==>
                active[a.value].rule.action == kept[b.value].rule.action))
  }

  lemma DecisionsMatch(rx: RegexEngine, active: seq<BuildRule>, kept: seq<BuildRule>, q: Query, a: Option<nat>, b: Option<nat>)
    requires kept == Kept(active, Subsumers(active))
    requires Decides(rx, active, q, a) && Decides(rx, kept, q, b)
    ensures SameDecision(rx, active, kept, q, a, b)
  {
    if a.Some? {
      var id' := HitSurvives(rx, active, q, a.value);
    }
    if b.Some? {
      var id := HitWasThere(rx, active, q, b.value);
    }
  }

  /** Pruning before compiling does not change any answer, up to block/rewrite ties. */
  lemma PruningIsSound(rx: RegexEngine, active: seq<BuildRule>, e: Engine, e': Engine, q: Query)
    requires WellFormed(active) && Compiled(e, active) && IsAscii(q.name)
    requires Compiled(e', Kept(active, Subsumers(active)))
    ensures SameDecision(rx, active, Kept(active, Subsumers(active)), q, CheckWinner(rx, e, q), CheckWinner(rx, e', q))
  {
    var kept := Kept(active, Subsumers(active));
    KeptIsWellFormed(active);
    CheckDecides(rx, e, active, q);
    CheckDecides(rx, e', kept, q);
    DecisionsMatch(rx, active, kept, q, CheckWinner(rx, e, q), CheckWinner(rx, e', q));
  }

  // ---- exactly when every compilation before and after pruning agrees ----

  lemma ScannedSnoc(rules: seq<BuildRule>, br: BuildRule, overriding: bool)
    ensures ScannedRules(rules + [br], overriding)
            == ScannedRules(rules, overriding) + (if Scanned(br, overriding) then [(br, br.indexTokens)] else [])
  {
    assert (rules + [br])[..|rules|] == rules;
  }

  /** Pruning removes no scanned rule. */
  lemma {:induction false} PruningKeepsScans(active: seq<BuildRule>, subs: set<string>, overriding: bool)
    ensures ScannedRules(Kept(active, subs), overriding) == ScannedRules(active, overriding)
    decreases |active|
  {
    if active != [] {
      var n := |active| - 1;
      var front, br := active[..n], active[n];
      assert active == front + [br];
      PruningKeepsScans(front, subs, overriding);
      KeptSnoc(front, br, subs);
      ScannedSnoc(front, br, overriding);
      if IsRedundant(br, subs) {
        assert Kept(front, subs) + [] == Kept(front, subs);
      } else {
        ScannedSnoc(Kept(front, subs), br, overriding);
      }
    }
  }

  /** Winners before pruning have a kept winner of their own class or, if pruned, a kept subdomain block. */
  lemma WinnerSurvives(rx: RegexEngine, active: seq<BuildRule>, kept: seq<BuildRule>, q: Query, id: nat) returns (id': nat)
    requires kept == Kept(active, Subsumers(active)) && IsWinner(rx, active, q, id)
    ensures IsWinner(rx, kept, q, id') && Priority(kept[id'].rule) == Priority(active[id].rule)
    ensures DomainWinner(rx, active, q, id) ==> DomainWinner(rx, kept, q, id')
  {
    var br := active[id];
    KeptIn(active, Subsumers(active), br);
    var c := br;
    if br !in kept {
      c := PrunedHasKeptCover(active, br);
      SubdomainTransitive(q.name, br.rule.pattern.domain, c.rule.pattern.domain);
    }
    id' :| 0 <= id' < |kept| && kept[id'] == c;
    forall k | 0 <= k < |kept| && Hits(rx, kept[k].rule, q) ensures Priority(kept[k].rule) <= Priority(kept[id'].rule) {
      var k' := HitWasThere(rx, active, q, k);
    }
  }

  lemma WinnerWasThere(rx: RegexEngine, active: seq<BuildRule>, kept: seq<BuildRule>, q: Query, id: nat) returns (id': nat)
    requires kept == Kept(active, Subsumers(active)) && IsWinner(rx, kept, q, id)
    ensures IsWinner(rx, active, q, id') && active[id'] == kept[id]
  {
    id' := HitWasThere(rx, active, q, id);
    forall k | 0 <= k < |active| && Hits(rx, active[k].rule, q) ensures Priority(active[k].rule) <= Priority(active[id'].rule) {
      var k' := HitSurvives(rx, active, q, k);
    }
  }

  /** The rule can decide the query, before pruning or after. */
  ghost predicate DecisiveEither(rx: RegexEngine, active: seq<BuildRule>, kept: seq<BuildRule>, q: Query, br: BuildRule, apart: bool) {
    DecisiveIn(rx, active, q, br, apart) || DecisiveIn(rx, kept, q, br, apart)
  }

  ghost predicate DecisiveIn(rx: RegexEngine, rules: seq<BuildRule>, q: Query, br: BuildRule, apart: bool) {
    exists id: nat :: Decisive(rx, rules, q, id, apart) && rules[id] == br
  }

  /** A block can decide before or after pruning, and so can a rewrite. */
  ghost predicate PruneMixed(rx: RegexEngine, active: seq<BuildRule>, kept: seq<BuildRule>, q: Query, apart: bool) {
    exists b, r ::
      && DecisiveEither(rx, active, kept, q, b, apart) && b.rule.action == Block
      && DecisiveEither(rx, active, kept, q, r, apart) && r.rule.action == Rewrite
  }

  ghost predicate PruningAgrees(rx: RegexEngine, active: seq<BuildRule>, kept: seq<BuildRule>, fits: SizeLimit, q: Query, apart: bool) {
    forall e, e' | InFamily(e, active, fits, q.name, apart) && InFamily(e', kept, fits, q.name, apart) ::
      BlockedBy(active, CheckWinner(rx, e, q)) == BlockedBy(kept, CheckWinner(rx, e', q))
  }

  /** Two rules that can both win, before and after, and act differently are a block and a rewrite. */
  lemma WinnersActAlike(rx: RegexEngine, active: seq<BuildRule>, kept: seq<BuildRule>, q: Query, a: nat, b: nat, apart: bool)
    requires kept == Kept(active, Subsumers(active)) && !PruneMixed(rx, active, kept, q, apart)
    requires Decisive(rx, active, q, a, apart) && Decisive(rx, kept, q, b, apart)
    ensures active[a].rule.action == Block <==> kept[b].rule.action == Block
  {
    var b' := WinnerWasThere(rx, active, kept, q, b);
    assert DecisiveIn(rx, active, q, active[a], apart) && DecisiveIn(rx, kept, q, kept[b], apart);
    if active[a].rule.action == Block {
      DifferentIsMixed(rx, active, q, a, b');
    } else if kept[b].rule.action == Block {
      DifferentIsMixed(rx, active, q, b', a);
    }
  }

  lemma {:induction false} ScansAgree(rx: RegexEngine, active: seq<BuildRule>, kept: seq<BuildRule>, fits: SizeLimit, e: Engine, e': Engine,
                                      q: Query, w: nat, w': nat)
    requires kept == Kept(active, Subsumers(active)) && WellFormed(active) && WellFormed(kept) && IsAscii(q.name)
    requires Built(e, active, fits) && Built(e', kept, fits)
    requires IsWinner(rx, active, q, w) && IsWinner(rx, kept, q, w') && Priority(active[w].rule) == Priority(kept[w'].rule)
    requires (forall x: nat :: !DomainWinner(rx, active, q, x)) && (forall x: nat :: !DomainWinner(rx, kept, q, x))
    ensures BlockedBy(active, CheckWinner(rx, e, q)) == BlockedBy(kept, CheckWinner(rx, e', q))
  {
    ScansDecide(rx, e, active, fits, q, w);
    ScansDecide(rx, e', kept, fits, q, w');
    PruningKeepsScans(active, Subsumers(active), true);
    PruningKeepsScans(active, Subsumers(active), false);
  }

  lemma {:induction false} DomainRulesAgree(rx: RegexEngine, active: seq<BuildRule>, kept: seq<BuildRule>, fits: SizeLimit, e: Engine, e': Engine,
                                            q: Query, apart: bool, x: nat)
    requires kept == Kept(active, Subsumers(active)) && WellFormed(active) && WellFormed(kept) && IsAscii(q.name)
    requires InFamily(e, active, fits, q.name, apart) && InFamily(e', kept, fits, q.name, apart)
    requires !PruneMixed(rx, active, kept, q, apart) && DomainWinner(rx, active, q, x)
    ensures BlockedBy(active, CheckWinner(rx, e, q)) == BlockedBy(kept, CheckWinner(rx, e', q))
  {
    var x' := WinnerSurvives(rx, active, kept, q, x);
    WinnerIsDecisive(rx, e, active, q, x, apart);
    WinnerIsDecisive(rx, e', kept, q, x', apart);
    WinnersActAlike(rx, active, kept, q, CheckWinner(rx, e, q).value, CheckWinner(rx, e', q).value, apart);
  }

  lemma NoDomainWinnerAfter(rx: RegexEngine, active: seq<BuildRule>, kept: seq<BuildRule>, q: Query)
    requires kept == Kept(active, Subsumers(active)) && forall x: nat :: !DomainWinner(rx, active, q, x)
    ensures forall x: nat :: !DomainWinner(rx, kept, q, x)
  {
    forall x: nat ensures !DomainWinner(rx, kept, q, x) {
      if DomainWinner(rx, kept, q, x) {
        var x' := WinnerWasThere(rx, active, kept, q, x);
        assert DomainWinner(rx, active, q, x');
      }
    }
  }

  lemma NoWinnerAfter(rx: RegexEngine, active: seq<BuildRule>, kept: seq<BuildRule>, e: Engine, e': Engine, q: Query)
    requires kept == Kept(active, Subsumers(active)) && WellFormed(active) && WellFormed(kept) && IsAscii(q.name)
    requires Compiled(e, active) && Compiled(e', kept) && CheckWinner(rx, e, q).None?
    ensures CheckWinner(rx, e', q).None?
  {
    CheckDecides(rx, e, active, q);
    CheckDecides(rx, e', kept, q);
    if CheckWinner(rx, e', q).Some? {
      var b := WinnerWasThere(rx, active, kept, q, CheckWinner(rx, e', q).value);
    }
  }

  lemma {:induction false} UnmixedPruningAgrees(rx: RegexEngine, active: seq<BuildRule>, kept: seq<BuildRule>, fits: SizeLimit, e: Engine, e': Engine,
                                                q: Query, apart: bool)
    requires kept == Kept(active, Subsumers(active)) && WellFormed(active) && WellFormed(kept) && IsAscii(q.name)
    requires InFamily(e, active, fits, q.name, apart) && InFamily(e', kept, fits, q.name, apart)
    requires !PruneMixed(rx, active, kept, q, apart)
    ensures BlockedBy(active, CheckWinner(rx, e, q)) == BlockedBy(kept, CheckWinner(rx, e', q))
  {
    if x: nat :| DomainWinner(rx, active, q, x) {
      DomainRulesAgree(rx, active, kept, fits, e, e', q, apart, x);
    } else if CheckWinner(rx, e, q).Some? {
      CheckDecides(rx, e, active, q);
      var a := CheckWinner(rx, e, q).value;
      var a' := WinnerSurvives(rx, active, kept, q, a);
      NoDomainWinnerAfter(rx, active, kept, q);
      ScansAgree(rx, active, kept, fits, e, e', q, a, a');
    } else {
      NoWinnerAfter(rx, active, kept, e, e', q);
    }
  }

  /** A rule that can decide does decide, in some compilation of its list. */
  lemma {:induction false} EitherDecides(rx: RegexEngine, active: seq<BuildRule>, kept: seq<BuildRule>, fits: SizeLimit, e: Engine, e': Engine,
                                         q: Query, br: BuildRule, apart: bool)
    returns (f: Engine, f': Engine)
    requires WellFormed(active) && WellFormed(kept) && IsAscii(q.name) && Built(e, active, fits) && Built(e', kept, fits)
    requires DecisiveEither(rx, active, kept, q, br, apart)
    ensures InFamily(f, active, fits, q.name, apart) && InFamily(f', kept, fits, q.name, apart)
    ensures BlockedBy(active, CheckWinner(rx, f, q)) == (br.rule.action == Block)
            || BlockedBy(kept, CheckWinner(rx, f', q)) == (br.rule.action == Block)
  {
    if DecisiveIn(rx, active, q, br, apart) {
      f := ListDecides(rx, active, fits, e, q, br, apart);
      f' := SomeCompilation(e', kept, fits, q.name, apart);
    } else {
      f := SomeCompilation(e, active, fits, q.name, apart);
      f' := ListDecides(rx, kept, fits, e', q, br, apart);
    }
  }

  lemma {:induction false} ListDecides(rx: RegexEngine, rules: seq<BuildRule>, fits: SizeLimit, e: Engine, q: Query, br: BuildRule, apart: bool)
    returns (f: Engine)
    requires WellFormed(rules) && IsAscii(q.name) && Built(e, rules, fits) && DecisiveIn(rx, rules, q, br, apart)
    ensures InFamily(f, rules, fits, q.name, apart) && BlockedBy(rules, CheckWinner(rx, f, q)) == (br.rule.action == Block)
  {
    var id: nat :| Decisive(rx, rules, q, id, apart) && rules[id] == br;
    f := PutFirstInFamily(rx, e, rules, fits, q, id, apart);
  }

  lemma SomeCompilation(e: Engine, rules: seq<BuildRule>, fits: SizeLimit, name: string, apart: bool) returns (e': Engine)
    requires Built(e, rules, fits)
    ensures InFamily(e', rules, fits, name, apart)
  {
    var names := NamesFor(name, apart);
    FirstThosePermutes(Only(0), |rules|);
    e' := Arrange(e, rules, names, FirstThose(Only(0), |rules|));
    ArrangedIsBuilt(e, rules, fits, names, FirstThose(Only(0), |rules|));
    if apart {
      NumberingIsApart(names, name);
    }
  }

  lemma {:induction false} MixedPruningDisagrees(rx: RegexEngine, active: seq<BuildRule>, kept: seq<BuildRule>, fits: SizeLimit, e: Engine, e': Engine,
                                                 q: Query, b: BuildRule, r: BuildRule, apart: bool)
    requires WellFormed(active) && WellFormed(kept) && IsAscii(q.name) && Built(e, active, fits) && Built(e', kept, fits)
    requires DecisiveEither(rx, active, kept, q, b, apart) && b.rule.action == Block
    requires DecisiveEither(rx, active, kept, q, r, apart) && r.rule.action == Rewrite
    ensures !PruningAgrees(rx, active, kept, fits, q, apart)
  {
    var f, f' := EitherDecides(rx, active, kept, fits, e, e', q, b, apart);
    var g, g' := EitherDecides(rx, active, kept, fits, e, e', q, r, apart);
    var x, x' := BlockedBy(active, CheckWinner(rx, f, q)), BlockedBy(kept, CheckWinner(rx, f', q));
    var y, y' := BlockedBy(active, CheckWinner(rx, g, q)), BlockedBy(kept, CheckWinner(rx, g', q));
    AgreesOn(rx, active, kept, fits, q, apart, f, f', x, x');
    AgreesOn(rx, active, kept, fits, q, apart, g, g', y, y');
    AgreesOn(rx, active, kept, fits, q, apart, f, g', x, y');
  }

  lemma {:induction false} AgreesOn(rx: RegexEngine, active: seq<BuildRule>, kept: seq<BuildRule>, fits: SizeLimit, q: Query, apart: bool,
                                    f: Engine, f': Engine, x: bool, y: bool)
    requires InFamily(f, active, fits, q.name, apart) && x == BlockedBy(active, CheckWinner(rx, f, q))
    requires InFamily(f', kept, fits, q.name, apart) && y == BlockedBy(kept, CheckWinner(rx, f', q))
    ensures PruningAgrees(rx, active, kept, fits, q, apart) ==> x == y
  {
  }

  /**
   Every compilation of the list and every compilation of the pruned list agree on
   blocking a query if and only if the rules that can decide it, before pruning or
   after, are not both blocks and rewrites.
   */
  lemma {:induction false} PruningAgreesIff(rx: RegexEngine, active: seq<BuildRule>, kept: seq<BuildRule>, fits: SizeLimit, e: Engine, e': Engine,
                                            q: Query, apart: bool)
    requires kept == Kept(active, Subsumers(active)) && WellFormed(active) && IsAscii(q.name)
    requires Built(e, active, fits) && Built(e', kept, fits)
    ensures PruningAgrees(rx, active, kept, fits, q, apart) <==> !PruneMixed(rx, active, kept, q, apart)
  {
    KeptIsWellFormed(active);
    if PruneMixed(rx, active, kept, q, apart) {
      var b, r :|
        && DecisiveEither(rx, active, kept, q, b, apart) && b.rule.action == Block
        && DecisiveEither(rx, active, kept, q, r, apart) && r.rule.action == Rewrite;
      MixedPruningDisagrees(rx, active, kept, fits, e, e', q, b, r, apart);
    } else {
      AllPruningAgrees(rx, active, kept, fits, q, apart);
    }
  }

  lemma {:induction false} AllPruningAgrees(rx: RegexEngine, active: seq<BuildRule>, kept: seq<BuildRule>, fits: SizeLimit, q: Query, apart: bool)
    requires kept == Kept(active, Subsumers(active)) && WellFormed(active) && WellFormed(kept) && IsAscii(q.name)
    requires !PruneMixed(rx, active, kept, q, apart)
    ensures PruningAgrees(rx, active, kept, fits, q, apart)
  {
    forall e1, e2 | InFamily(e1, active, fits, q.name, apart) && InFamily(e2, kept, fits, q.name, apart)
      ensures BlockedBy(active, CheckWinner(rx, e1, q)) == BlockedBy(kept, CheckWinner(rx, e2, q))
    {
      UnmixedPruningAgrees(rx, active, kept, fits, e1, e2, q, apart);
    }
  }

  // ---- two lists that pruning decides the other way ----

  const PARENT_BLOCK := BuildRule(Rule("||b.com^", Block, Subdomain("b.com"), None, 0), "||b.com^|$", [])
  const HOST_BLOCK := BuildRule(Rule("0.0.0.0 a.b.com", Block, Exact("a.b.com"), None, 0), "hosts|a.b.com|block", [])
  const HOST_REWRITE := BuildRule(
    Rule("1.2.3.4 a.b.com", Rewrite, Exact("a.b.com"), Some(RuleMods(false, None, None, None, [], Some("1.2.3.4"))), 0),
    "hosts|a.b.com|rewrite", [])
  const ZONE_REWRITE := BuildRule(
    Rule("||a.b.com^$dnsrewrite=1.2.3.4", Rewrite, Subdomain("a.b.com"), Some(RuleMods(false, None, None, None, [], Some("1.2.3.4"))), 0),
    "||a.b.com^|$dnsrewrite=1.2.3.4", [])

  lemma HostBlockIsRedundant()
    ensures IsRedundant(HOST_BLOCK, {"b.com"}) && !IsRedundant(PARENT_BLOCK, {"b.com"})
    ensures !IsRedundant(HOST_REWRITE, {"b.com"}) && !IsRedundant(ZONE_REWRITE, {"b.com"})
  {
    HostSuffixes();
    ParentNotAbove();
  }

  lemma ParentNotAbove()
    ensures "b.com" in DotSuffixes("b.com") && "b.com" !in DotSuffixes("b.com")[1..]
  {
    assert "b.com" == DotSuffixes("b.com")[0];
    forall s | s in DotSuffixes("b.com")[1..] ensures s != "b.com" {
      ParentIsShorter("b.com", s);
    }
  }

  lemma HostSuffixes()
    ensures DotSuffixes("a.b.com")[1..] == DotSuffixes("b.com")
  {
    assert FirstDot("a.b.com") == 1 by { assert "a.b.com"[1..][0] == '.'; }
    assert "a.b.com"[2..] == "b.com";
    DotSuffixesStep("a.b.com", 1);
  }

  /** The parent block prunes the host block, and neither rewrite. */
  lemma PrunedTieList(rewrite: BuildRule)
    requires rewrite == HOST_REWRITE || rewrite == ZONE_REWRITE
    ensures Kept([PARENT_BLOCK, HOST_BLOCK, rewrite], Subsumers([PARENT_BLOCK, HOST_BLOCK, rewrite])) == [PARENT_BLOCK, rewrite]
  {
    TieSubsumers(rewrite);
    HostBlockIsRedundant();
    KeptOuter(PARENT_BLOCK, HOST_BLOCK, rewrite, {"b.com"});
  }

  lemma TieSubsumers(rewrite: BuildRule)
    requires rewrite == HOST_REWRITE || rewrite == ZONE_REWRITE
    ensures Subsumers([PARENT_BLOCK, HOST_BLOCK, rewrite]) == {"b.com"}
  {
    var active := [PARENT_BLOCK, HOST_BLOCK, rewrite];
    assert PARENT_BLOCK in active;
  }

  lemma KeptOuter(a: BuildRule, b: BuildRule, c: BuildRule, subs: set<string>)
    requires !IsRedundant(a, subs) && IsRedundant(b, subs) && !IsRedundant(c, subs)
    ensures Kept([a, b, c], subs) == [a, c]
  {
    KeptOne(c, [], subs);
    KeptOne(b, [c], subs);
    KeptOne(a, [b, c], subs);
    assert [a, b, c] == [a] + [b, c] && [b, c] == [b] + [c] && [c] == [c] + [];
  }

  lemma KeptOne(br: BuildRule, rest: seq<BuildRule>, subs: set<string>)
    ensures Kept([br] + rest, subs) == (if IsRedundant(br, subs) then [] else [br]) + Kept(rest, subs)
  {
    assert ([br] + rest)[1..] == rest;
  }

  ghost predicate FromTie(rules: seq<BuildRule>) {
    forall id :: 0 <= id < |rules| ==> rules[id] in {PARENT_BLOCK, HOST_BLOCK, HOST_REWRITE, ZONE_REWRITE}
  }

  lemma TieListsAreWellFormed(rules: seq<BuildRule>)
    requires FromTie(rules)
    ensures WellFormed(rules)
  {
  }

  lemma HostName()
    ensures IsAscii("a.b.com") && IsSubdomainOf("a.b.com", "b.com")
  {
    assert "a.b.com"[2..] == "b.com";
  }

  /** Every rule of these lists applies to the host, at the same rank. */
  lemma AllCanWin(rx: RegexEngine, rules: seq<BuildRule>, client: ClientInfo, id: nat)
    requires FromTie(rules) && id < |rules|
    ensures IsWinner(rx, rules, Query("a.b.com", "A", client), id)
  {
    HostName();
    forall k | 0 <= k < |rules| ensures Hits(rx, rules[k].rule, Query("a.b.com", "A", client)) && Priority(rules[k].rule) == 1 {
      assert rules[k] in {PARENT_BLOCK, HOST_BLOCK, HOST_REWRITE, ZONE_REWRITE};
    }
  }

  /** A parent block, a host block and a host rewrite: unpruned either may decide the host, pruned the rewrite does. */
  lemma {:induction false} PruningCanFlipTie(rx: RegexEngine, kept: seq<BuildRule>, e': Engine, client: ClientInfo)
    requires kept == Kept([PARENT_BLOCK, HOST_BLOCK, HOST_REWRITE], Subsumers([PARENT_BLOCK, HOST_BLOCK, HOST_REWRITE])) && Compiled(e', kept)
    ensures forall apart :: PruneMixed(rx, [PARENT_BLOCK, HOST_BLOCK, HOST_REWRITE], kept, Query("a.b.com", "A", client), apart)
    ensures CheckWinner(rx, e', Query("a.b.com", "A", client)) == Some(1) && kept == [PARENT_BLOCK, HOST_REWRITE]
  {
    PrunedTieList(HOST_REWRITE);
    TieIsMixed(rx, [PARENT_BLOCK, HOST_BLOCK, HOST_REWRITE], kept, client);
    ExactRuleWins(rx, e', kept, client);
  }

  lemma {:induction false} TieIsMixed(rx: RegexEngine, active: seq<BuildRule>, kept: seq<BuildRule>, client: ClientInfo)
    requires active == [PARENT_BLOCK, HOST_BLOCK, HOST_REWRITE]
    ensures forall apart :: PruneMixed(rx, active, kept, Query("a.b.com", "A", client), apart)
  {
    var q := Query("a.b.com", "A", client);
    AllCanWin(rx, active, client, 1);
    AllCanWin(rx, active, client, 2);
    forall apart ensures PruneMixed(rx, active, kept, q, apart) {
      assert Decisive(rx, active, q, 1, apart) && Decisive(rx, active, q, 2, apart);
      assert DecisiveIn(rx, active, q, active[1], apart) && DecisiveIn(rx, active, q, active[2], apart);
    }
  }

  /** With one exact rule in the list, it decides, however the list is compiled. */
  lemma {:induction false} ExactRuleWins(rx: RegexEngine, e: Engine, rules: seq<BuildRule>, client: ClientInfo)
    requires FromTie(rules) && |rules| >= 2 && rules[1].rule.pattern.Exact? && Compiled(e, rules)
    requires forall id :: 0 <= id < |rules| && rules[id].rule.pattern.Exact? ==> id == 1
    ensures CheckWinner(rx, e, Query("a.b.com", "A", client)) == Some(1)
  {
    TieListsAreWellFormed(rules);
    HostName();
    AllCanWin(rx, rules, client, 1);
    ExactGoesFirst(rx, e, rules, Query("a.b.com", "A", client), 1);
  }

  /** With hashes apart, the rewrite of the longer zone decides over the parent block. */
  lemma {:induction false} LongerZoneWins(rx: RegexEngine, e: Engine, kept: seq<BuildRule>, client: ClientInfo)
    requires kept == [PARENT_BLOCK, ZONE_REWRITE] && Compiled(e, kept) && Apart(e.hash, "a.b.com")
    ensures CheckWinner(rx, e, Query("a.b.com", "A", client)) == Some(1)
  {
    var q := Query("a.b.com", "A", client);
    TieListsAreWellFormed(kept);
    HostName();
    AllCanWin(rx, kept, client, 1);
    WinnerIsDecisive(rx, e, kept, q, 1, true);
    OnlyZoneDecides(rx, kept, client, CheckWinner(rx, e, q).value);
  }

  lemma OnlyZoneDecides(rx: RegexEngine, kept: seq<BuildRule>, client: ClientInfo, w: nat)
    requires kept == [PARENT_BLOCK, ZONE_REWRITE] && Decisive(rx, kept, Query("a.b.com", "A", client), w, true)
    ensures w == 1
  {
    AllCanWin(rx, kept, client, 1);
    assert SubdomainWinner(rx, kept, Query("a.b.com", "A", client), 1);
    assert |"a.b.com"| == 7 && |"b.com"| == 5;
  }

  /**
   No tie is needed: a parent block, a host block and a zone rewrite. Unpruned,
   every compilation blocks the host, collisions or not; pruned, every compilation
   without collisions rewrites it.
   */
  lemma {:induction false} PruningFlipsUntied(rx: RegexEngine, active: seq<BuildRule>, kept: seq<BuildRule>, e: Engine, e': Engine,
                                              client: ClientInfo)
    requires active == [PARENT_BLOCK, HOST_BLOCK, ZONE_REWRITE] && Compiled(e, active)
    requires kept == Kept(active, Subsumers(active)) && Compiled(e', kept) && Apart(e'.hash, "a.b.com")
    ensures CheckWinner(rx, e, Query("a.b.com", "A", client)) == Some(1) && active[1].rule.action == Block
    ensures CheckWinner(rx, e', Query("a.b.com", "A", client)) == Some(1) && kept == [PARENT_BLOCK, ZONE_REWRITE]
  {
    PrunedTieList(ZONE_REWRITE);
    ExactRuleWins(rx, e, active, client);
    LongerZoneWins(rx, e', kept, client);
  }
}
