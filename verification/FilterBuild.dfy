/** Compiling a rule list: sorting into hash buckets, filing by rarest token, filling the arenas. */
module FilterBuild {
  import opened Wrappers
  import opened Tokens
  import opened Rules
  import opened FilterEngine
  import opened FilterCorrect
  import opened BucketOrder
  import opened ScanOrder

  // ---- hash-bucketed domain index ----

  lemma InsertionSorts(r: seq<(int, nat)>, j: nat, x: (int, nat), r': seq<(int, nat)>)
    requires SortedByHash(r) && j <= |r| && r' == r[..j] + [x] + r[j..]
    requires (forall k :: 0 <= k < j ==> r[k].0 <= x.0) && (j < |r| ==> x.0 < r[j].0)
    ensures SortedByHash(r')
  {
    forall a, b | 0 <= a < b < |r'| ensures r'[a].0 <= r'[b].0 {
      var lo := if a < j then r[a] else if a == j then x else r[a - 1];
      var hi := if b < j then r[b] else if b == j then x else r[b - 1];
      assert r'[a] == lo && r'[b] == hi;
    }
  }

  lemma InsertionPermutes(r: seq<(int, nat)>, j: nat, x: (int, nat))
    requires j <= |r|
    ensures multiset(r[..j] + [x] + r[j..]) == multiset(r) + multiset{x}
  {
    assert r == r[..j] + r[j..];
  }

  method InsertByHash(r: seq<(int, nat)>, x: (int, nat)) returns (r': seq<(int, nat)>)
    requires SortedByHash(r)
    ensures SortedByHash(r') && multiset(r') == multiset(r) + multiset{x}
  {
    var j := 0;
    while j < |r| && r[j].0 <= x.0
      invariant 0 <= j <= |r|
      invariant forall k :: 0 <= k < j ==> r[k].0 <= x.0
    {
      j := j + 1;
    }
    r' := r[..j] + [x] + r[j..];
    InsertionSorts(r, j, x, r');
    InsertionPermutes(r, j, x);
  }

  /** Some order by hash; callers may rely on nothing about equal hashes. */
  method SortByHash(xs: seq<(int, nat)>) returns (r: seq<(int, nat)>)
    ensures SortedByHash(r) && multiset(r) == multiset(xs)
  {
    r := [];
    var i := 0;
    while i < |xs|
      invariant 0 <= i <= |xs|
      invariant SortedByHash(r) && multiset(r) == multiset(xs[..i])
    {
      r := InsertByHash(r, xs[i]);
      assert xs[..i + 1] == xs[..i] + [xs[i]];
      i := i + 1;
    }
    assert xs[..i] == xs;
  }

  /** The end of the block of equal hashes that starts at `i`. */
  method BlockEnd(sorted: seq<(int, nat)>, i: nat) returns (j: nat)
    requires SortedByHash(sorted) && i < |sorted|
    ensures i < j <= |sorted|
    ensures forall k :: i <= k < j ==> sorted[k].0 == sorted[i].0
    ensures forall k :: j <= k < |sorted| ==> sorted[i].0 < sorted[k].0
  {
    j := i + 1;
    while j < |sorted| && sorted[j].0 == sorted[i].0
      invariant i < j <= |sorted|
      invariant forall k :: i <= k < j ==> sorted[k].0 == sorted[i].0
    {
      j := j + 1;
    }
  }

  method BuildRanges(sorted: seq<(int, nat)>) returns (ranges: map<int, (nat, nat)>, hits: seq<nat>)
    requires SortedByHash(sorted)
    ensures RangesOf(ranges, sorted, |sorted|)
    ensures |hits| == |sorted| && forall k :: 0 <= k < |sorted| ==> hits[k] == sorted[k].1
  {
    ranges, hits := map[], [];
    var i := 0;
    while i < |sorted|
      invariant 0 <= i <= |sorted| && |hits| == i
      invariant forall k :: 0 <= k < i ==> hits[k] == sorted[k].1
      invariant RangesOf(ranges, sorted, i)
      invariant i < |sorted| ==> forall k :: 0 <= k < i ==> sorted[k].0 < sorted[i].0
    {
      var j := BlockEnd(sorted, i);
      RangesGrow(ranges, sorted, i, j);
      ranges := ranges[sorted[i].0 := (i, j - i)];
      while i < j
        invariant i <= j && |hits| == i
        invariant forall k :: 0 <= k < i ==> hits[k] == sorted[k].1
      {
        hits := hits + [sorted[i].1];
        i := i + 1;
      }
    }
  }

  /** Sorted, cut into ranges: each pair is there once, and a bucket holds a rule as often as it was paired with the hash. */
  method BuildIndex(pairs: seq<(int, nat)>) returns (ix: DomainIndex)
    ensures LaidOut(ix, pairs) && ValidIndex(ix)
    ensures forall h: int, id: nat :: multiset(Bucket(ix, h))[id] == multiset(pairs)[(h, id)]
  {
    var sorted := SortByHash(pairs);
    var ranges, hits := BuildRanges(sorted);
    ix := DomainIndex(ranges, hits);
    assert IndexOf(ix, sorted);
    IndexOfIsValid(ix, sorted);
    forall h: int, id: nat ensures multiset(Bucket(ix, h))[id] == multiset(pairs)[(h, id)] {
      BucketCounts(ix, pairs, h, id);
    }
  }

  // ---- scan groups ----

  function Count(freq: map<Token, nat>, t: Token): nat {
    if t in freq then freq[t] else 0
  }

  method CountTokens(meta: Meta<nat>) returns (freq: map<Token, nat>)
    ensures forall t :: Count(freq, t) == Frequency(meta, t)
  {
    freq := map[];
    var i := 0;
    while i < |meta|
      invariant 0 <= i <= |meta|
      invariant forall t :: Count(freq, t) == Frequency(meta[..i], t)
    {
      var toks := meta[i].1;
      var j := 0;
      while j < |toks|
        invariant 0 <= j <= |toks|
        invariant forall t :: Count(freq, t) == Frequency(meta[..i], t) + multiset(toks[..j])[t]
      {
        assert toks[..j + 1] == toks[..j] + [toks[j]];
        freq := freq[toks[j] := Count(freq, toks[j]) + 1];
        j := j + 1;
      }
      assert toks[..j] == toks;
      assert meta[..i + 1][..i] == meta[..i];
      i := i + 1;
    }
    assert meta[..i] == meta;
  }

  ghost predicate IsRarest(meta: Meta<nat>, toks: seq<Token>, t: Token) {
    t in toks && forall u :: u in toks ==> Frequency(meta, t) <= Frequency(meta, u)
  }

  method RarestToken(ghost meta: Meta<nat>, freq: map<Token, nat>, toks: seq<Token>) returns (best: Option<Token>)
    requires forall t :: Count(freq, t) == Frequency(meta, t)
    ensures best == Rarest(meta, toks)
  {
    best := None;
    var i := 0;
    while i < |toks|
      invariant 0 <= i <= |toks|
      invariant best == Rarest(meta, toks[..i])
    {
      assert toks[..i + 1][..i] == toks[..i];
      if best.None? || Count(freq, toks[i]) < Count(freq, best.value) {
        best := Some(toks[i]);
      }
      i := i + 1;
    }
    assert toks[..i] == toks;
  }

  ghost predicate InMeta(meta: Meta<nat>, id: nat) {
    exists m :: m in meta && m.0 == id
  }

  ghost predicate FiledUnder(meta: Meta<nat>, all: Meta<nat>, id: nat, t: Token) {
    exists m :: m in meta && m.0 == id && IsRarest(all, m.1, t)
  }

  ghost predicate InIndex(index: map<Token, seq<nat>>, id: nat, t: Token) {
    t in index && id in index[t]
  }

  /** The rule is filed under one of its tokens, or left for the fallback. */
  ghost predicate Filed(index: map<Token, seq<nat>>, fallback: seq<nat>, m: (nat, seq<Token>)) {
    m.0 in fallback || exists t :: t in m.1 && InIndex(index, m.0, t)
  }

  /** Files every rule under its rarest token, and leaves those without one for the fallback. */
  method FileByToken(meta: Meta<nat>) returns (index: map<Token, seq<nat>>, fallback: seq<nat>)
    ensures index == IndexFirst(meta, |meta|) && fallback == FallbackFirst(meta, |meta|, true)
  {
    index, fallback := map[], [];
    var freq := CountTokens(meta);
    var i := 0;
    while i < |meta|
      invariant 0 <= i <= |meta|
      invariant index == IndexFirst(meta, i) && fallback == FallbackFirst(meta, i, true)
    {
      var (id, toks) := meta[i];
      var best := RarestToken(meta, freq, toks);
      if best.Some? {
        var tok := best.value;
        index := index[tok := (if tok in index then index[tok] else []) + [id]];
      } else {
        fallback := fallback + [id];
      }
      i := i + 1;
    }
  }

  /** The index holds a rule only under its rarest token, and every rule is filed or left over. */
  lemma {:induction false} FiledIsComplete(meta: Meta<nat>, n: nat, index: map<Token, seq<nat>>, fallback: seq<nat>)
    requires n <= |meta| && index == IndexFirst(meta, n) && fallback == FallbackFirst(meta, n, true)
    ensures forall t, id :: InIndex(index, id, t) ==> FiledUnder(meta, meta, id, t)
    ensures forall id :: id in fallback ==> InMeta(meta, id)
    ensures forall k :: 0 <= k < n ==> Filed(index, fallback, meta[k])
  {
    if n > 0 {
      var index0, fallback0 := IndexFirst(meta, n - 1), FallbackFirst(meta, n - 1, true);
      FiledIsComplete(meta, n - 1, index0, fallback0);
      var (id, toks) := meta[n - 1];
      assert meta[n - 1] in meta;
      var best := Rarest(meta, toks);
      if best.Some? {
        OneFiled(meta, index0, best.value, id, toks);
      }
      forall k | 0 <= k < n - 1 ensures Filed(index, fallback, meta[k]) {
        assert Filed(index0, fallback0, meta[k]);
        AddToKeeps(index0, best, id, meta[k]);
      }
    }
  }

  lemma OneFiled(meta: Meta<nat>, index: map<Token, seq<nat>>, tok: Token, id: nat, toks: seq<Token>)
    requires (id, toks) in meta && Rarest(meta, toks) == Some(tok)
    ensures FiledUnder(meta, meta, id, tok) && InIndex(AddTo(index, tok, id), id, tok)
    ensures forall t, x :: InIndex(AddTo(index, tok, id), x, t) ==> InIndex(index, x, t) || (t == tok && x == id)
  {
    assert IsRarest(meta, toks, tok);
  }

  lemma AddToKeeps(index: map<Token, seq<nat>>, best: Option<Token>, id: nat, m: (nat, seq<Token>))
    ensures best.Some? ==> forall t :: InIndex(index, m.0, t) ==> InIndex(AddTo(index, best.value, id), m.0, t)
  {
  }

  lemma {:induction false} FallbackAll(meta: Meta<nat>, n: nat)
    requires n <= |meta|
    ensures |FallbackFirst(meta, n, false)| == n && forall k :: 0 <= k < n ==> FallbackFirst(meta, n, false)[k] == meta[k].0
  {
    if n > 0 {
      FallbackAll(meta, n - 1);
    }
  }

  ghost predicate ScanMeta(meta: Meta<nat>, records: seq<RuleRecord>, programs: seq<Program>) {
    forall m :: m in meta ==> m.0 < |records| && IsScanKind(records[m.0].kind) && records[m.0].domOrRe < |programs|
  }

  ghost predicate SetFromMeta(s: RegexSet, meta: Meta<nat>, records: seq<RuleRecord>, programs: seq<Program>) {
    && |s.programs| == |s.ids|
    && forall k :: 0 <= k < |s.ids| ==>
         && InMeta(meta, s.ids[k]) && s.ids[k] < |records| && records[s.ids[k]].domOrRe < |programs|
         && s.programs[k] == programs[records[s.ids[k]].domOrRe]
  }

  ghost predicate InSomeSet(sets: seq<RegexSet>, id: nat) {
    exists s :: s in sets && id in s.ids
  }

  /** The program of each rule, as its record names it. */
  ghost predicate ProgramsOf(prog: nat -> Program, meta: Meta<nat>, records: seq<RuleRecord>, programs: seq<Program>) {
    forall m :: m in meta ==> m.0 < |records| && records[m.0].domOrRe < |programs| && prog(m.0) == programs[records[m.0].domOrRe]
  }

  /** One chunk of the fallback becomes a set of programs and the ids they belong to. */
  method CollectChunk(chunk: seq<nat>, ghost meta: Meta<nat>, records: seq<RuleRecord>, programs: seq<Program>, ghost prog: nat -> Program)
    returns (s: RegexSet)
    requires ScanMeta(meta, records, programs) && ProgramsOf(prog, meta, records, programs)
    requires forall k :: 0 <= k < |chunk| ==> InMeta(meta, chunk[k])
    ensures s == RegexSet(MapSeq(prog, chunk), chunk)
  {
    var ids: seq<nat> := [];
    var pats: seq<Program> := [];
    var i := 0;
    while i < |chunk|
      invariant 0 <= i <= |chunk| && ids == chunk[..i]
      invariant pats == MapSeq(prog, chunk[..i])
    {
      var id := chunk[i];
      assert InMeta(meta, id);
      assert chunk[..i + 1] == chunk[..i] + [id];
      MapSeqAppend(prog, chunk[..i], [id]);
      if IsScanKind(records[id].kind) {
        pats := pats + [programs[records[id].domOrRe]];
        ids := ids + [id];
      }
      i := i + 1;
    }
    assert chunk[..i] == chunk;
    s := RegexSet(pats, ids);
  }

  lemma ChunkStep(fits: SizeLimit, fallback: seq<nat>, prog: nat -> Program, i: nat, end: nat)
    requires i < |fallback| && end == i + ChunkLen(fallback[i..])
    ensures fallback[i..][..end - i] == fallback[i..end] && fallback[i..][end - i..] == fallback[end..]
    ensures SetsFrom(fits, fallback[i..], prog)
            == (if fits(MapSeq(prog, fallback[i..end])) then [RegexSet(MapSeq(prog, fallback[i..end]), fallback[i..end])] else [])
               + SetsFrom(fits, fallback[end..], prog)
    ensures AloneFrom(fits, fallback[i..], prog)
            == (if fits(MapSeq(prog, fallback[i..end])) then [] else fallback[i..end]) + AloneFrom(fits, fallback[end..], prog)
  {
  }

  lemma AppendStep<T>(done: seq<T>, x: seq<T>, rest: seq<T>, r: seq<T>)
    requires r == x + rest
    ensures (done + x) + rest == done + r
  {
  }

  /** Fallback rules go into sets of at most 256, or are scanned one by one when a set does not fit. */
  method BuildFallback(fits: SizeLimit, fallback: seq<nat>, ghost meta: Meta<nat>, records: seq<RuleRecord>, programs: seq<Program>,
                       ghost prog: nat -> Program)
    returns (sets: seq<RegexSet>, individual: seq<nat>)
    requires ScanMeta(meta, records, programs) && ProgramsOf(prog, meta, records, programs)
    requires forall k :: 0 <= k < |fallback| ==> InMeta(meta, fallback[k])
    ensures sets == SetsFrom(fits, fallback, prog) && individual == AloneFrom(fits, fallback, prog)
  {
    sets, individual := [], [];
    var i := 0;
    ghost var allSets, allAlone := SetsFrom(fits, fallback, prog), AloneFrom(fits, fallback, prog);
    while i < |fallback|
      invariant 0 <= i <= |fallback|
      invariant sets + SetsFrom(fits, fallback[i..], prog) == allSets
      invariant individual + AloneFrom(fits, fallback[i..], prog) == allAlone
    {
      var end := if i + FALLBACK_CHUNK <= |fallback| then i + FALLBACK_CHUNK else |fallback|;
      var s := CollectChunk(fallback[i..end], meta, records, programs, prog);
      ChunkStep(fits, fallback, prog, i, end);
      var newSets: seq<RegexSet>, newAlone: seq<nat> := if fits(s.programs) then [s] else [], if fits(s.programs) then [] else s.ids;
      AppendStep(sets, newSets, SetsFrom(fits, fallback[end..], prog), SetsFrom(fits, fallback[i..], prog));
      AppendStep(individual, newAlone, AloneFrom(fits, fallback[end..], prog), AloneFrom(fits, fallback[i..], prog));
      sets, individual := sets + newSets, individual + newAlone;
      i := end;
    }
  }

  /** Sets hold at most 256 fallback rules and fit; no fallback rule is lost. */
  lemma {:induction false} FallbackIsComplete(fits: SizeLimit, fallback: seq<nat>, prog: nat -> Program, id: nat)
    ensures id in fallback <==> InSomeSet(SetsFrom(fits, fallback, prog), id) || id in AloneFrom(fits, fallback, prog)
    ensures forall s :: s in SetsFrom(fits, fallback, prog) ==> s.programs == MapSeq(prog, s.ids) && 0 < |s.ids| <= FALLBACK_CHUNK && fits(s.programs)
    decreases |fallback|
  {
    if fallback != [] {
      var k := ChunkLen(fallback);
      var chunk, rest := fallback[..k], fallback[k..];
      FallbackIsComplete(fits, rest, prog, id);
      assert fallback == chunk + rest;
      var sets, more := SetsFrom(fits, fallback, prog), SetsFrom(fits, rest, prog);
      var own := RegexSet(MapSeq(prog, chunk), chunk);
      if fits(own.programs) {
        assert sets == [own] + more;
        assert InSomeSet(sets, id) <==> id in own.ids || InSomeSet(more, id) by {
          assert own in sets;
        }
      } else {
        assert sets == more;
      }
    }
  }

  /** The group holds exactly the rules of `meta`, each reachable as `Reached` demands. */
  ghost predicate MetaGroup(g: ScanGroup, meta: Meta<nat>, records: seq<RuleRecord>, programs: seq<Program>) {
    && (forall s :: s in g.sets ==> SetFromMeta(s, meta, records, programs))
    && (forall id :: id in g.individual ==> InMeta(meta, id))
    && (forall t, id :: InIndex(g.index, id, t) ==> FiledUnder(meta, meta, id, t))
    && (forall m :: m in meta ==>
          InSomeSet(g.sets, m.0) || m.0 in g.individual || exists t :: t in m.1 && InIndex(g.index, m.0, t))
  }

  lemma FallbackInMeta(meta: Meta<nat>, tokenIndex: bool, fallback: seq<nat>)
    requires fallback == FallbackFirst(meta, |meta|, tokenIndex)
    ensures forall k :: 0 <= k < |fallback| ==> InMeta(meta, fallback[k])
  {
    if tokenIndex {
      FiledIsComplete(meta, |meta|, IndexFirst(meta, |meta|), fallback);
      assert forall k :: 0 <= k < |fallback| ==> fallback[k] in fallback;
    } else {
      FallbackAll(meta, |meta|);
      assert forall k :: 0 <= k < |fallback| ==> meta[k] in meta;
    }
  }

  /** Compiles one group; the result is a function of its rules and the size limit. */
  method BuildScanGroup(fits: SizeLimit, meta: Meta<nat>, records: seq<RuleRecord>, programs: seq<Program>, tokenIndex: bool,
                        ghost prog: nat -> Program)
    returns (g: ScanGroup)
    requires ScanMeta(meta, records, programs) && ProgramsOf(prog, meta, records, programs)
    ensures g == GroupFrom(fits, meta, prog, tokenIndex)
  {
    var index: map<Token, seq<nat>>, fallback: seq<nat> := map[], [];
    if tokenIndex {
      index, fallback := FileByToken(meta);
    } else {
      var i := 0;
      while i < |meta|
        invariant 0 <= i <= |meta| && fallback == FallbackFirst(meta, i, false)
      {
        fallback := fallback + [meta[i].0];
        i := i + 1;
      }
    }
    FallbackInMeta(meta, tokenIndex, fallback);
    var sets, individual := BuildFallback(fits, fallback, meta, records, programs, prog);
    g := ScanGroup(index, sets, individual);
  }

  lemma SetsFromMeta(fits: SizeLimit, meta: Meta<nat>, records: seq<RuleRecord>, programs: seq<Program>, fallback: seq<nat>, prog: nat -> Program)
    requires ProgramsOf(prog, meta, records, programs) && forall k :: 0 <= k < |fallback| ==> InMeta(meta, fallback[k])
    ensures forall s :: s in SetsFrom(fits, fallback, prog) ==> SetFromMeta(s, meta, records, programs)
    ensures forall id :: id in AloneFrom(fits, fallback, prog) ==> InMeta(meta, id)
  {
    forall id: nat | id in AloneFrom(fits, fallback, prog) ensures InMeta(meta, id) {
      FallbackIsComplete(fits, fallback, prog, id);
    }
    forall s | s in SetsFrom(fits, fallback, prog) ensures SetFromMeta(s, meta, records, programs) {
      FallbackIsComplete(fits, fallback, prog, 0);
      forall k | 0 <= k < |s.ids| ensures InMeta(meta, s.ids[k]) {
        FallbackIsComplete(fits, fallback, prog, s.ids[k]);
        assert InSomeSet(SetsFrom(fits, fallback, prog), s.ids[k]);
      }
    }
  }

  /** The group holds exactly the rules of `meta`, each where the lookup reaches it. */
  lemma GroupIsComplete(fits: SizeLimit, meta: Meta<nat>, records: seq<RuleRecord>, programs: seq<Program>, tokenIndex: bool,
                        prog: nat -> Program)
    requires ScanMeta(meta, records, programs) && ProgramsOf(prog, meta, records, programs)
    ensures MetaGroup(GroupFrom(fits, meta, prog, tokenIndex), meta, records, programs)
  {
    var g, fallback := GroupFrom(fits, meta, prog, tokenIndex), FallbackFirst(meta, |meta|, tokenIndex);
    FallbackInMeta(meta, tokenIndex, fallback);
    SetsFromMeta(fits, meta, records, programs, fallback, prog);
    if tokenIndex {
      FiledIsComplete(meta, |meta|, g.index, fallback);
    }
    forall m | m in meta
      ensures InSomeSet(g.sets, m.0) || m.0 in g.individual || exists t :: t in m.1 && InIndex(g.index, m.0, t)
    {
      var k :| 0 <= k < |meta| && meta[k] == m;
      if !tokenIndex {
        FallbackAll(meta, |meta|);
        assert fallback[k] in fallback;
      }
      FallbackIsComplete(fits, fallback, prog, m.0);
    }
  }

  // ---- the rule arenas ----

  datatype Builder = Builder(
    records: seq<RuleRecord>,
    domainArena: string,
    mods: seq<RuleMods>,
    programs: seq<Program>,
    exactPairs: seq<(int, nat)>,
    subPairs: seq<(int, nat)>,
    overrideMeta: Meta<nat>,
    blockMeta: Meta<nat>,
    clientDependent: bool)

  const NO_INDEX := DomainIndex(map[], [])
  const NO_GROUP: ScanGroup := ScanGroup(map[], [], [])

  /** The arenas of a builder seen as an engine with empty indexes. */
  function Arenas(b: Builder, hash: string -> int): Engine {
    Engine(b.records, b.domainArena, b.mods, b.programs, hash, NO_INDEX, NO_INDEX, NO_GROUP, NO_GROUP, b.clientDependent)
  }

  ghost predicate GroupMeta(meta: Meta<nat>, rules: seq<BuildRule>, overriding: bool) {
    forall m: (nat, seq<Token>) :: m in meta <==> InGroup(rules, overriding, m.0) && m.1 == rules[m.0].indexTokens
  }

  ghost predicate BuilderFor(b: Builder, hash: string -> int, rules: seq<BuildRule>) {
    && |b.records| == |rules|
    && (forall id :: 0 <= id < |rules| ==> RecordFor(Arenas(b, hash), rules[id].rule, b.records[id]))
    && GroupMeta(b.overrideMeta, rules, true)
    && GroupMeta(b.blockMeta, rules, false)
    && (b.clientDependent <==> exists id :: 0 <= id < |rules| && DependsOnClient(rules[id].rule))
  }

  /** Growing the arenas does not disturb a record already stored. */
  lemma RecordSurvives(b: Builder, b': Builder, hash: string -> int, r: Rule, rec: RuleRecord)
    requires RecordFor(Arenas(b, hash), r, rec)
    requires b.domainArena <= b'.domainArena && b.mods <= b'.mods && b.programs <= b'.programs
    ensures RecordFor(Arenas(b', hash), r, rec)
  {
    if !IsScanKind(rec.kind) {
      assert StoredDomain(Arenas(b', hash), rec) == StoredDomain(Arenas(b, hash), rec);
    }
  }

  /** Where a pattern's text or program went, as its record will name it. */
  ghost predicate PatternStored(p: Pattern, kind: Kind, domOrRe: nat, domLen: nat, arena: string, programs: seq<Program>) {
    match p
    case Exact(d) => kind == EXACT && domLen == |d| % 256 && domOrRe + domLen <= |arena| && arena[domOrRe..domOrRe + domLen] == d[..domLen]
    case Subdomain(d) => kind == SUBDOMAIN && domLen == |d| % 256 && domOrRe + domLen <= |arena| && arena[domOrRe..domOrRe + domLen] == d[..domLen]
    case Wildcard(_) => kind == WILDCARD && domOrRe < |programs| && programs[domOrRe] == ProgramOf(p)
    case Regex(_) => kind == REGEX && domOrRe < |programs| && programs[domOrRe] == ProgramOf(p)
  }

  method StorePattern(p: Pattern, arena: string, programs: seq<Program>)
    returns (kind: Kind, domOrRe: nat, domLen: nat, arena': string, programs': seq<Program>)
    ensures arena <= arena' && programs <= programs'
    ensures PatternStored(p, kind, domOrRe, domLen, arena', programs')
  {
    arena', programs', domLen := arena, programs, 0;
    match p {
      case Exact(d) =>
        kind, domOrRe, domLen, arena' := EXACT, |arena|, |d| % 256, arena + d;
      case Subdomain(d) =>
        kind, domOrRe, domLen, arena' := SUBDOMAIN, |arena|, |d| % 256, arena + d;
      case Wildcard(_) =>
        kind, domOrRe, programs' := WILDCARD, |programs|, programs + [ProgramOf(p)];
      case Regex(_) =>
        kind, domOrRe, programs' := REGEX, |programs|, programs + [ProgramOf(p)];
    }
  }

  /** One turn of the build loop: the modifiers, then the arena of the pattern's kind. */
  method AddRule(b: Builder, hash: string -> int, br: BuildRule) returns (b': Builder)
    ensures Extends(b, b', hash, br)
  {
    var id := |b.records|;
    var r := br.rule;
    var modsIdx: Option<nat> := None;
    var mods, clientDependent := b.mods, b.clientDependent;
    if r.mods.Some? {
      if r.mods.value.client.Some? || r.mods.value.ctag.Some? {
        clientDependent := true;
      }
      modsIdx := Some(|mods|);
      mods := mods + [r.mods.value];
    }
    var overrideCapable := r.action == Allow || (modsIdx.Some? && mods[modsIdx.value].important);
    var kind, domOrRe, domLen, arena, programs := StorePattern(r.pattern, b.domainArena, b.programs);
    var exactPairs, subPairs, overrideMeta, blockMeta := b.exactPairs, b.subPairs, b.overrideMeta, b.blockMeta;
    if r.pattern.Exact? {
      exactPairs := exactPairs + [(hash(r.pattern.domain), id)];
    } else if r.pattern.Subdomain? {
      subPairs := subPairs + [(hash(r.pattern.domain), id)];
    } else if overrideCapable {
      overrideMeta := overrideMeta + [(id, br.indexTokens)];
    } else {
      blockMeta := blockMeta + [(id, br.indexTokens)];
    }
    var rec := RuleRecord(kind, domOrRe, domLen, modsIdx, r.action, r.listId);
    b' := Builder(b.records + [rec], arena, mods, programs, exactPairs, subPairs, overrideMeta, blockMeta, clientDependent);
    StoredRecord(b', hash, r, rec);
  }

  lemma StoredRecord(b: Builder, hash: string -> int, r: Rule, rec: RuleRecord)
    requires rec.action == r.action && rec.listId == r.listId
    requires rec.modsIdx.Some? == r.mods.Some?
    requires r.mods.Some? ==> rec.modsIdx.value < |b.mods| && b.mods[rec.modsIdx.value] == r.mods.value
    requires PatternStored(r.pattern, rec.kind, rec.domOrRe, rec.domLen, b.domainArena, b.programs)
    ensures RecordFor(Arenas(b, hash), r, rec)
  {
  }

  /** `b'` is `b` with one more rule. */
  ghost predicate Extends(b: Builder, b': Builder, hash: string -> int, br: BuildRule) {
    var id, p := |b.records|, br.rule.pattern;
    && |b'.records| == id + 1 && b.records <= b'.records
    && b.domainArena <= b'.domainArena && b.mods <= b'.mods && b.programs <= b'.programs
    && RecordFor(Arenas(b', hash), br.rule, b'.records[id])
    && b'.exactPairs == b.exactPairs + (if p.Exact? then [(hash(p.domain), id)] else [])
    && b'.subPairs == b.subPairs + (if p.Subdomain? then [(hash(p.domain), id)] else [])
    && b'.overrideMeta == b.overrideMeta
         + (if IsScanPattern(p) && OverrideCapable(br.rule) then [(id, br.indexTokens)] else [])
    && b'.blockMeta == b.blockMeta
         + (if IsScanPattern(p) && !OverrideCapable(br.rule) then [(id, br.indexTokens)] else [])
    && b'.clientDependent == (b.clientDependent || DependsOnClient(br.rule))
  }

  lemma AddedRuleKeepsBuilder(b: Builder, b': Builder, hash: string -> int, rules: seq<BuildRule>, br: BuildRule)
    requires BuilderFor(b, hash, rules) && Extends(b, b', hash, br)
    ensures BuilderFor(b', hash, rules + [br])
  {
    var rules' := rules + [br];
    var n := |rules|;
    forall id | 0 <= id < |rules'| ensures RecordFor(Arenas(b', hash), rules'[id].rule, b'.records[id]) {
      if id < n {
        assert b'.records[id] == b.records[id];
        RecordSurvives(b, b', hash, rules[id].rule, b.records[id]);
      }
    }
    assert rules'[n] == br;
    GroupMetaGrows(b.overrideMeta, b'.overrideMeta, rules, br, true);
    GroupMetaGrows(b.blockMeta, b'.blockMeta, rules, br, false);
    assert forall id :: 0 <= id < n ==> rules'[id] == rules[id];
  }

  lemma GroupMetaGrows(meta: Meta<nat>, meta': Meta<nat>, rules: seq<BuildRule>, br: BuildRule, overriding: bool)
    requires GroupMeta(meta, rules, overriding)
    requires meta' == meta + (if IsScanPattern(br.rule.pattern) && OverrideCapable(br.rule) == overriding then [(|rules|, br.indexTokens)] else [])
    ensures GroupMeta(meta', rules + [br], overriding)
  {
  }

  lemma GroupFromMeta(e: Engine, g: ScanGroup, rules: seq<BuildRule>, meta: Meta<nat>, overriding: bool)
    requires |e.records| == |rules| && forall id :: 0 <= id < |rules| ==> RecordFor(e, rules[id].rule, e.records[id])
    requires GroupMeta(meta, rules, overriding) && MetaGroup(g, meta, e.records, e.programs)
    ensures GroupFor(e, g, rules, overriding)
  {
    forall id: nat | InMeta(meta, id) ensures InGroup(rules, overriding, id) {
      var m :| m in meta && m.0 == id;
    }
    forall s | s in g.sets ensures SetFor(s, rules, overriding) && ValidIds(e, s.ids) {
      forall k | 0 <= k < |s.ids| ensures InGroup(rules, overriding, s.ids[k]) && s.programs[k] == ProgramOf(rules[s.ids[k]].rule.pattern) {
        assert InMeta(meta, s.ids[k]);
        assert RecordFor(e, rules[s.ids[k]].rule, e.records[s.ids[k]]);
      }
    }
    forall t, id: nat | t in g.index && id in g.index[t] ensures InGroup(rules, overriding, id) && t in rules[id].indexTokens {
      assert InIndex(g.index, id, t);
      var m :| m in meta && m.0 == id && IsRarest(meta, m.1, t);
    }
    forall t | t in g.index ensures ValidIds(e, g.index[t]) {
      forall k | 0 <= k < |g.index[t]| ensures g.index[t][k] < |e.records| {
        var id := g.index[t][k];
        assert id in g.index[t];
        assert InGroup(rules, overriding, id);
      }
    }
    forall id: nat | InGroup(rules, overriding, id) ensures Reached(g, rules, id) {
      assert (id, rules[id].indexTokens) in meta;
    }
    forall k | 0 <= k < |g.individual| ensures g.individual[k] < |e.records| {
      assert g.individual[k] in g.individual;
    }
  }

  lemma ScanMetaFromGroup(b: Builder, hash: string -> int, rules: seq<BuildRule>, meta: Meta<nat>, overriding: bool)
    requires BuilderFor(b, hash, rules) && GroupMeta(meta, rules, overriding)
    ensures ScanMeta(meta, b.records, b.programs)
  {
    forall m | m in meta
      ensures m.0 < |b.records| && IsScanKind(b.records[m.0].kind) && b.records[m.0].domOrRe < |b.programs|
    {
      assert RecordFor(Arenas(b, hash), rules[m.0].rule, b.records[m.0]);
    }
  }

  /** Record properties speak of the arenas only, so filling the indexes keeps them. */
  lemma RecordsOfFinished(b: Builder, hash: string -> int, e: Engine, rules: seq<BuildRule>)
    requires BuilderFor(b, hash, rules)
    requires e.records == b.records && e.domainArena == b.domainArena && e.mods == b.mods && e.programs == b.programs
    ensures forall id :: 0 <= id < |rules| ==> RecordFor(e, rules[id].rule, e.records[id])
  {
    forall id | 0 <= id < |rules| ensures RecordFor(e, rules[id].rule, e.records[id]) {
      assert RecordFor(Arenas(b, hash), rules[id].rule, b.records[id]);
    }
  }

  /** What the first `i` rules leave to be indexed. */
  ghost predicate Collected(b: Builder, hash: string -> int, rules: seq<BuildRule>, i: nat)
    requires i <= |rules|
  {
    && b.overrideMeta == MetaFirst(rules, true, i) && b.blockMeta == MetaFirst(rules, false, i)
    && b.exactPairs == PairsFirst(rules, hash, true, i) && b.subPairs == PairsFirst(rules, hash, false, i)
  }

  lemma CollectsOne(b: Builder, b': Builder, hash: string -> int, rules: seq<BuildRule>, i: nat)
    requires i < |rules| && |b.records| == i && Collected(b, hash, rules, i) && Extends(b, b', hash, rules[i])
    ensures Collected(b', hash, rules, i + 1)
  {
  }

  lemma AddedNext(b: Builder, b': Builder, hash: string -> int, rules: seq<BuildRule>, i: nat)
    requires i < |rules| && BuilderFor(b, hash, rules[..i]) && Collected(b, hash, rules, i) && Extends(b, b', hash, rules[i])
    ensures BuilderFor(b', hash, rules[..i + 1]) && Collected(b', hash, rules, i + 1)
  {
    CollectsOne(b, b', hash, rules, i);
    AddedRuleKeepsBuilder(b, b', hash, rules[..i], rules[i]);
    assert rules[..i + 1] == rules[..i] + [rules[i]];
  }

  method AddAll(rules: seq<BuildRule>, hash: string -> int) returns (b: Builder)
    ensures BuilderFor(b, hash, rules) && Collected(b, hash, rules, |rules|)
  {
    b := Builder([], "", [], [], [], [], [], [], false);
    var i := 0;
    while i < |rules|
      invariant 0 <= i <= |rules|
      invariant BuilderFor(b, hash, rules[..i]) && Collected(b, hash, rules, i)
    {
      var b' := AddRule(b, hash, rules[i]);
      AddedNext(b, b', hash, rules, i);
      b := b';
      i := i + 1;
    }
    assert rules[..i] == rules;
  }

  lemma MetaPrograms(b: Builder, hash: string -> int, rules: seq<BuildRule>, meta: Meta<nat>, overriding: bool)
    requires BuilderFor(b, hash, rules) && GroupMeta(meta, rules, overriding)
    ensures ProgramsOf(ProgramAt(rules), meta, b.records, b.programs)
  {
    forall m | m in meta
      ensures m.0 < |b.records| && b.records[m.0].domOrRe < |b.programs| && ProgramAt(rules)(m.0) == b.programs[b.records[m.0].domOrRe]
    {
      assert RecordFor(Arenas(b, hash), rules[m.0].rule, b.records[m.0]);
      assert RuleAt(rules)(m.0) == rules[m.0];
    }
  }

  /** One scan group of the list, with what the lookup relies on. */
  method GroupFromBuilder(b: Builder, ghost hash: string -> int, ghost rules: seq<BuildRule>, meta: Meta<nat>, fits: SizeLimit, overriding: bool)
    returns (g: ScanGroup)
    requires BuilderFor(b, hash, rules) && GroupMeta(meta, rules, overriding) && meta == MetaFirst(rules, overriding, |rules|)
    ensures g == GroupOfRules(fits, rules, overriding) && MetaGroup(g, meta, b.records, b.programs)
  {
    ScanMetaFromGroup(b, hash, rules, meta, overriding);
    MetaPrograms(b, hash, rules, meta, overriding);
    GroupIsComplete(fits, meta, b.records, b.programs, !overriding, ProgramAt(rules));
    g := BuildScanGroup(fits, meta, b.records, b.programs, !overriding, ProgramAt(rules));
  }

  /** Compiles a rule list, for any domain hash and any regex-set size limit. */
  method FromRules(rules: seq<BuildRule>, hash: string -> int, fits: SizeLimit) returns (e: Engine)
    ensures Built(e, rules, fits) && e.hash == hash
  {
    var b := AddAll(rules, hash);
    var overrideScan := GroupFromBuilder(b, hash, rules, b.overrideMeta, fits, true);
    var blockScan := GroupFromBuilder(b, hash, rules, b.blockMeta, fits, false);
    var exact := BuildIndex(b.exactPairs);
    var subdomain := BuildIndex(b.subPairs);
    e := Engine(b.records, b.domainArena, b.mods, b.programs, hash, exact, subdomain, overrideScan, blockScan, b.clientDependent);
    FinishedIsBuilt(b, hash, e, rules, fits);
  }

  lemma FinishedIsBuilt(b: Builder, hash: string -> int, e: Engine, rules: seq<BuildRule>, fits: SizeLimit)
    requires BuilderFor(b, hash, rules)
    requires e.records == b.records && e.domainArena == b.domainArena && e.mods == b.mods && e.programs == b.programs
    requires e.hash == hash && e.clientDependent == b.clientDependent
    requires LaidOut(e.exact, PairsOf(rules, hash, true)) && LaidOut(e.subdomain, PairsOf(rules, hash, false))
    requires MetaGroup(e.overrideScan, b.overrideMeta, b.records, b.programs) && MetaGroup(e.blockScan, b.blockMeta, b.records, b.programs)
    requires e.overrideScan == GroupOfRules(fits, rules, true) && e.blockScan == GroupOfRules(fits, rules, false)
    ensures Built(e, rules, fits)
  {
    RecordsOfFinished(b, hash, e, rules);
    GroupFromMeta(e, e.overrideScan, rules, b.overrideMeta, true);
    GroupFromMeta(e, e.blockScan, rules, b.blockMeta, false);
    LaidOutHolds(e.exact, rules, hash, true);
    LaidOutHolds(e.subdomain, rules, hash, false);
    HoldsIndexed(e, rules);
  }
}
