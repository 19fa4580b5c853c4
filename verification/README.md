# Bulwark, modelled and proved in Dafny

Bulwark is a DNS filtering resolver. This project models the parts of it where a
fast form must agree with a simple one, or where an invariant has to hold over
every run, and proves that they do. `dafny verify dfyconfig.toml` checks it all.

One module per component:

- **Filtering.** `Domains`, `Tokens`, `Globs` and `Rules` say what names, tokens,
  wildcards and rules mean. `FilterEngine` is the compiled filter and the lookup
  over it; `FilterBuild` compiles a rule list, `ScanOrder` and `BucketOrder` say what
  its scan groups and domain buckets can be, `FilterCheck` runs the lookup,
  `FilterCorrect` proves it against a linear scan, `FilterLimits` shows which
  rules it misses, `FilterTies` settles which decisions survive a recompilation,
  `Prune` covers redundant-rule removal, and `AnswerFilter` filtering of responses.
- **Answer cache.** `DnsCache` is the sharded LRU cache, `Lookups` its counters
  under concurrent lookups, `Ageing` one entry's life across clocks and restarts,
  `Snapshot` the restart file format, `SnapshotLimits` the same for records of any
  size, `Persist` the export and import, and `Restart` what the new process holds
  of what the old one held. `Memo` is the protocol of memoised filter verdicts
  under reloads and late completions, `MemoFilter` the same with compiled filters.
- **Wire format.** `Wire` scans and patches messages, `Question` reads questions,
  `Keys` is the identity of a question.
- **Statistics.** `HeavyHitters`, `Quantile` and `Stats`.
- **Upstreams.** `Health`, `Ranking`, `Pool`, `SingleFlight` and `Demux`.

Libraries appear as parameters: the regular-expression engine, the domain hash,
the regex-set size limit, text encoding, message parsing, address rendering and
the content hash of a rule list. Every result holds for all of them, under the
assumptions written in the lemma (`Faithful` and `CutShows` for text,
`CollisionFree` for the content hash). Names are sequences of characters, bytes
are integers below 256, latencies are reals, times are whole seconds. Concurrent
code is modelled as a state machine whose steps are what one hold of a lock, or
one counter increment, does.

Results about recompiling a list come in two strengths, by a flag `apart`: over all
compilations, hash collisions included, or over those in which no two suffixes of
the queried name collide.

## Where the code falls short of what one would expect

Each of these is a lemma with a concrete input and a lemma with the exact
condition under which the expectation holds.

- A wildcard with U+212A or U+017F next to a token can match a name that lacks the
  token, and then every compilation misses the rule (`FilterLimits.KelvinRuleMissed`,
  for `a.kads.net`). A run of the body is whole in every match of a lookup name if and
  only if neither neighbour is such a character or no lookup name matches
  (`Globs.SafeRunKeptIff`); a matching block with tokens is reached if and only if the
  name emits the token it is filed under (`FilterLimits.FiledRuleReachedIff`).
- Domain lengths are stored in eight bits and hosts lines are not limited: a host of
  256 characters is never blocked (`FilterLimits.LongHostMissed`). An exact rule is
  taken when it applies, and only then, if and only if its domain has at most 255
  characters or the query is out of reach of both the domain and what is stored of
  it (`FilterLimits.ExactRuleRightIff`).
- Block and rewrite rules share a rank and bucket order is open, so recompiling a
  list can turn a block into a rewrite: exactly when both can decide the query
  (`FilterTies.CompilationsAgreeIff`). A memoised verdict can then be wrong after a
  reload of the same list (`MemoFilter.TieIsAmbiguous`,
  `MemoFilter.MemoisedVerdictsRightIff`).
- Pruning flips decisions, not only tied ones: with blocks on `b.com` and its
  subdomains, on the host `a.b.com`, and a rewrite of `a.b.com` and its subdomains,
  the host is blocked unpruned and rewritten pruned (`Prune.PruningFlipsUntied`).
  The list before and after pruning agree if and only if blocks and rewrites cannot
  both decide, counting deciders before and after (`Prune.PruningAgreesIff`).
- One record over the limits makes an import drop every later one
  (`Snapshot.OversizeRecordDropsTheRest`), and a text above 65535 bytes is cut, its
  tail taken for the next fields. A snapshot is restored in full if and only if
  every record is within the limits and has no such text
  (`SnapshotLimits.SnapshotKeptIff`).
- A restart need not keep what was exported: shards and capacity are new, and the
  most recent entries come first in the file and so are the first to be evicted
  (`Restart.LastUsedIsLost`, `Restart.RecencyReversed`). Exactly which entries are
  held afterwards is `Restart.RestartHoldsIff`.
- Ages saturate at 32 bits, so an entry is served stale for ever when TTL plus
  window exceed that (`Ageing.ServedForEver`, `Ageing.ServingEndsIff`); a wall clock
  set back during downtime understates the age (`Ageing.DishonestClockUnderstatesAge`,
  `Ageing.ImportedAgeSufficesIff`).
- The cache counts a stale hit before it counts the hit, so at one moment there can be
  more stale hits than hits (`Lookups.StaleCanExceedHits`): exactly when more lookups
  are between the two increments than hits were plain (`Lookups.StaleWithinHitsIff`).
  An observer loads hits first and stale hits later, and can see more of these with no
  lookup in between at either load (`Lookups.ObserverSeesMore`): exactly when the
  lookups in between at the first load and those that count a stale hit before the
  second are more than the plain hits (`Lookups.ObservedStaleIff`).
- A statistics file with a histogram that is too short leaves later records without
  their bucket (`Stats.ShortHistogramFails`, `Stats.RecordsInRangeIff`).
- Health adopted under a changed failure threshold can be up with too many
  failures or down with too few (`Health.AdoptionCanBreakSoundness`,
  `Pool.AdoptionSoundIff`).
- If the caller that inserted a shared future goes away while others wait on it, a
  second one for the same question can start (`SingleFlight.DroppedInserterDuplicates`,
  `SingleFlight.CoveredIff`).
- When 65536 exchanges start during one, its waiter can be lost on a live socket
  (`Demux.WrapLosesWaiter`): waiters are lost so if and only if an exchange
  registers or leaves under an id another one waits under
  (`Demux.NoSpuriousFailureIff`). A TLS connection that idles out drops the waiters
  it has or still admits (`Demux.TlsIdleCloseDropsWaiter`), and nobody if and only
  if nobody waits at its teardown (`Demux.IdleCloseDropsNobodyIff`).

## Model

| member | source | states |
|---|---|---|
| Domains.SuffixWalkIsSubdomain | crates/bulwark-filter/src/engine.rs:264-269 | the suffixes visited at each dot are exactly the bases the name equals or is a subdomain of |
| Domains.SubdomainTransitive | crates/bulwark-filter/src/engine.rs:264-269 | a subdomain of a subdomain is a subdomain |
| Domains.NormalizeIsNormal | crates/bulwark-filter/src/engine.rs:603-655 | the name checked is lower case, has no trailing dot, and normalising it again changes nothing |
| Tokens.HashFromIgnoresCase | crates/bulwark-filter/src/token.rs:12-19 | texts equal up to ASCII case hash alike from any state |
| Tokens.ComputeHash | crates/bulwark-filter/src/token.rs:12-19 | the folding loop computes 32-bit FNV-1a of the lower-cased text |
| Tokens.QueryTokensAreRuns | crates/bulwark-filter/src/token.rs:57-76 | a hash is emitted if and only if it is that of a maximal alphanumeric run of three or more characters |
| Tokens.ForEachQueryToken | crates/bulwark-filter/src/token.rs:57-76 | the streaming loop emits exactly those hashes, left to right |
| Tokens.SortDedup | crates/bulwark-filter/src/token.rs:79-102 | sorting and removing duplicates keeps the set and orders it strictly |
| Tokens.TokenizePatternSafe | crates/bulwark-filter/src/token.rs:79-102 | a pattern's tokens are exactly the hashes of its runs bounded on both sides by something other than a wildcard or an end |
| Globs.GlobSplit | crates/bulwark-filter/src/parser.rs:375-402 | a match of a body splits at every position of the body |
| Globs.GlobJoin | crates/bulwark-filter/src/parser.rs:375-402 | matches of two bodies in a row are a match of their concatenation |
| Globs.SafeRunIsQueryRun | crates/bulwark-filter/src/token.rs:79-102 | in any match a safe run of the body faces a maximal run of the name, equal up to case |
| Globs.AsciiIsFoldSafe | crates/bulwark-filter/src/parser.rs:375-402 | no ASCII body has characters that fold onto letters |
| Globs.PrefilterIsSound | crates/bulwark-filter/src/token.rs:57-102 | every token of a wildcard body is emitted for every ASCII name its compiled pattern matches |
| Globs.SafeRunKeptIff | crates/bulwark-filter/src/parser.rs:375-402 | a safe run is a run of every lookup name in every match if and only if neither neighbour folds onto a letter, or the pattern must end the name in a dot and no lookup name matches |
| Globs.FoldingDefeatsPrefilter | crates/bulwark-filter/src/parser.rs:375-402 | a body with a Kelvin sign before its token matches the lookup name a.kads.net, which does not emit that token |
| Rules.OverridePriority | crates/bulwark-filter/src/engine.rs:324-327 | a rule can override a plain block if and only if its priority exceeds one |
| Rules.LinearScanFindsWinner | crates/bulwark-filter/src/rule.rs:211-225 | the reference scan finds a rule that applies and outranks all that do, or shows that none does |
| FilterEngine.ConsiderPicksBest | crates/bulwark-filter/src/engine.rs:545-566 | the best after a candidate list is the old best or a passing candidate, and no passing candidate outranks it |
| FilterEngine.ConsiderIgnoresClient | crates/bulwark-filter/src/engine.rs:568-599 | if no candidate's outcome depends on the client, neither does the choice |
| FilterCorrect.PassesMeansHits | crates/bulwark-filter/src/engine.rs:429-437 | the record checks of a candidate amount to the rule's own meaning, and record priority to rule priority |
| FilterCorrect.ScanIsExhaustive | crates/bulwark-filter/src/engine.rs:516-543 | a group scan yields a rule if and only if it belongs to the group and its pattern matches |
| FilterCorrect.FirstPhaseDecides | crates/bulwark-filter/src/engine.rs:603-655 | a winner of the first phase is a winner among all rules, so skipping the block scan is harmless; without one only plain wildcard or regex blocks can apply |
| FilterCorrect.BlockScanDecides | crates/bulwark-filter/src/engine.rs:603-655 | when only those are left, the second phase decides |
| FilterCorrect.CheckDecides | crates/bulwark-filter/src/engine.rs:603-655 | for every hash function and bucket order, the lookup finds a rule if and only if one applies, and it has the highest priority of all that apply |
| FilterCorrect.CheckAgreesWithLinearScan | crates/bulwark-filter/src/engine.rs:603-655 | the lookup agrees with the linear scan on whether a rule applies and on the winning priority |
| FilterCorrect.CheckIgnoresClient | crates/bulwark-filter/src/engine.rs:568-599 | without client or tag modifiers in the list, every client gets the same winner |
| FilterLimits.KelvinRuleIsParsed | crates/bulwark-filter/src/token.rs:79-102 | the tokens of that rule are those the parser gives it |
| FilterLimits.KelvinRuleMissed | crates/bulwark-filter/src/engine.rs:516-543 | the rule applies to a.kads.net and every compilation, whatever the hash and size limit, finds nothing |
| FilterLimits.FiledRuleMissed | crates/bulwark-filter/src/engine.rs:516-543 | a block filed under a token is missed by every query that does not emit it |
| FilterLimits.FiledRuleReachedIff | crates/bulwark-filter/src/engine.rs:160-226 | in any list, a matching block with tokens is a candidate of the scan if and only if the name emits the token the block is filed under |
| FilterLimits.FiledRuleFoundIff | crates/bulwark-filter/src/engine.rs:516-543 | on its own, such a block is found for a query it applies to if and only if the name emits its token |
| FilterLimits.ExactRuleTakenIff | crates/bulwark-filter/src/engine.rs:47-64 | an exact rule is taken if and only if hashes agree, the name is the stored part of the domain, and the modifiers allow the query |
| FilterLimits.ExactRuleRightIff | crates/bulwark-filter/src/engine.rs:329-344 | an exact rule is taken exactly when it applies if and only if its domain has at most 255 characters, or its modifiers exclude the query, or the name is neither the domain nor its stored part under a colliding hash |
| FilterLimits.LongHostMissed | crates/bulwark-filter/src/engine.rs:329-344 | a hosts line for a name of 256 characters applies to it and is never found |
| FilterBuild.SortByHash | crates/bulwark-filter/src/engine.rs:100-119 | the pairs sorted by hash are a sorted permutation |
| FilterBuild.BuildRanges | crates/bulwark-filter/src/engine.rs:100-119 | each hash is given the range of its block in the sorted pairs |
| FilterBuild.BuildIndex | crates/bulwark-filter/src/engine.rs:100-126 | the index is a layout of the pairs, sorted by hash: a bucket holds a rule exactly as often as it was paired with that hash |
| BucketOrder.BucketsRepeatNothing | crates/bulwark-filter/src/engine.rs:98-126 | no bucket of a compiled list has a rule twice, and each has exactly the rules of its kind and hash |
| BucketOrder.OrderIsLaidOut | crates/bulwark-filter/src/engine.rs:98-126 | conversely, for any order of the rules, buckets in that order are a layout the unstable sort may leave |
| FilterBuild.CountTokens | crates/bulwark-filter/src/engine.rs:160-226 | tokens are counted once per occurrence over all rules |
| FilterBuild.RarestToken | crates/bulwark-filter/src/engine.rs:160-226 | the token a rule is filed under is least frequent among its own; only a rule without tokens has none |
| FilterBuild.FileByToken | crates/bulwark-filter/src/engine.rs:160-226 | index and fallback list are the specified functions of the rules, filed one by one under their first rarest token |
| FilterBuild.FiledIsComplete | crates/bulwark-filter/src/engine.rs:160-226 | every rule is in the index under its rarest token or in the fallback list, and nothing else is |
| FilterBuild.BuildFallback | crates/bulwark-filter/src/engine.rs:160-226 | sets and individual rules are the specified function of the fallback list, chunk by chunk |
| FilterBuild.FallbackIsComplete | crates/bulwark-filter/src/engine.rs:160-226 | every fallback rule is in a regex set of at most 256 that fits, or kept individually, and nothing else is |
| FilterBuild.BuildScanGroup | crates/bulwark-filter/src/engine.rs:160-226 | the group is a function of its rules and the size limit alone |
| FilterBuild.GroupIsComplete | crates/bulwark-filter/src/engine.rs:160-226 | that group reaches every rule given to it and no other |
| FilterBuild.StorePattern | crates/bulwark-filter/src/engine.rs:329-380 | arenas only grow, and the stored offsets give back the pattern, its domain length cut to eight bits |
| FilterBuild.AddRule | crates/bulwark-filter/src/engine.rs:290-380 | one rule is appended to the records and filed in exactly one index or group |
| FilterBuild.FromRules | crates/bulwark-filter/src/engine.rs:273-407 | compiling any list, with any hash and any size limit, meets all that the lookup relies on; its scan groups are the ones of the list and its indexes lay out the list's pairs, each once |
| ScanOrder.GroupMap | crates/bulwark-filter/src/engine.rs:160-226 | renumbering rules renumbers the group they compile to and changes nothing else |
| ScanOrder.CandidatesAsRules | crates/bulwark-filter/src/engine.rs:516-543 | the candidates a scan yields, read as rules and in order, depend on the rules of the group only |
| FilterCheck.CollectSuffixes | crates/bulwark-filter/src/engine.rs:499-514 | the suffix loop collects the buckets of the name and of every parent, in order |
| FilterCheck.CollectDomain | crates/bulwark-filter/src/engine.rs:499-514 | domain candidates are the exact bucket followed by the suffix buckets |
| FilterCheck.ScanGroupFor | crates/bulwark-filter/src/engine.rs:516-543 | the scan loops yield the candidates of the group in order |
| FilterCheck.ConsiderAll | crates/bulwark-filter/src/engine.rs:545-566 | the running best and its priority follow the specification of the choice |
| FilterCheck.NormalizeName | crates/bulwark-filter/src/engine.rs:603-655 | the borrowed and the copied form of the name are the same normal form |
| FilterCheck.FindRule | crates/bulwark-filter/src/engine.rs:603-655 | both phases, with their shortcuts on empty groups, compute the specified winner |
| FilterCheck.Check | crates/bulwark-filter/src/engine.rs:603-678 | the verdict is that of a highest-priority rule among all that apply, carries its rewrite data, and is a plain allow if and only if none applies |
| FilterTies.ConsiderTakesFirst | crates/bulwark-filter/src/engine.rs:545-566 | among candidates of the best priority the first in the list wins |
| FilterTies.CheckTakesFirstTop | crates/bulwark-filter/src/engine.rs:603-655 | the lookup returns the first candidate met that no applying rule outranks |
| FilterTies.ExactGoesFirst | crates/bulwark-filter/src/engine.rs:499-514 | if an exact rule can win, the first such one in the bucket of the name wins |
| FilterTies.SubdomainGoesNext | crates/bulwark-filter/src/engine.rs:499-514 | if no exact rule can win but a subdomain rule can, the first such one of the suffix walk wins |
| FilterTies.LongestGoesFirst | crates/bulwark-filter/src/engine.rs:264-269 | without collisions among the name's suffixes, that one has the longest domain |
| FilterTies.WinnerIsDecisive | crates/bulwark-filter/src/engine.rs:499-514 | if a domain rule can win, the winner is a top exact rule, else a top subdomain rule, and without collisions one of the longest domain |
| FilterTies.AnyDecisiveCanWin | crates/bulwark-filter/src/engine.rs:98-126 | conversely each such rule wins in some compilation, one that lists every rule once, with collisions or without |
| FilterTies.ScansDecide | crates/bulwark-filter/src/engine.rs:603-655 | if no domain rule can win, the winning rule is a function of the scanned rules, however they are compiled |
| FilterTies.UnmixedListsAgree | crates/bulwark-filter/src/engine.rs:439-448 | two compilations of a list block the same queries unless a block and a rewrite can both decide |
| FilterTies.CompilationsAgreeIff | crates/bulwark-filter/src/engine.rs:439-448 | all compilations agree on blocking a query if and only if no block and rewrite can both decide it: a tie within the class met first, or without collisions a tie at the longest domain |
| Prune.HasSubsumedParent | crates/bulwark-filter/src/list.rs:114-134 | the parent walk finds a subsumer if and only if a proper dot suffix is one |
| Prune.CheckRedundant | crates/bulwark-filter/src/list.rs:114-134 | redundancy is decided for every kind of rule |
| Prune.PruneRedundant | crates/bulwark-filter/src/list.rs:86-112 | exactly the non-redundant rules stay, in order |
| Prune.PrunedHasKeptCover | crates/bulwark-filter/src/list.rs:86-134 | every pruned block has a kept plain subdomain block above it |
| Prune.HitSurvives | crates/bulwark-filter/src/list.rs:86-134 | whatever applies before pruning has a kept rule of the same action and priority that applies |
| Prune.PruningKeepsHits | crates/bulwark-filter/src/list.rs:86-134 | some rule of a given priority applies before pruning if and only if one does after |
| Prune.PruningIsSound | crates/bulwark-filter/src/list.rs:86-134 | compiled before or after pruning, every query gets the same winning priority, and the same action if no rewrite applies |
| Prune.PruningKeepsScans | crates/bulwark-filter/src/list.rs:114-134 | pruning removes no wildcard or regex rule and keeps their order |
| Prune.UnmixedPruningAgrees | crates/bulwark-filter/src/list.rs:86-134 | a compilation of the list and one of the pruned list block the same queries unless a block and a rewrite can both decide, before pruning or after |
| Prune.PruningAgreesIff | crates/bulwark-filter/src/list.rs:86-134 | all compilations of the list and of the pruned list agree on blocking a query if and only if that is not so |
| Prune.PrunedTieList | crates/bulwark-filter/src/list.rs:86-112 | a parent block prunes a host block but no rewrite of the host, exact or with its subdomains |
| Prune.PruningCanFlipTie | crates/bulwark-filter/src/list.rs:86-134 | unpruned a block or a rewrite may decide that host, pruned the rewrite always does |
| Prune.PruningFlipsUntied | crates/bulwark-filter/src/list.rs:86-134 | without any tie: unpruned every compilation blocks the host, pruned every compilation without collisions rewrites it |
| AnswerFilter.FirstBlockIff | crates/bulwark-engine/src/lib.rs:99-130 | an answer is blocked if and only if some name or address in it is |
| AnswerFilter.FirstBlockIgnoresClient | crates/bulwark-engine/src/lib.rs:99-130 | without client-dependent rules every client gets the same blocking rule |
| AnswerFilter.FilterAnswers | crates/bulwark-engine/src/lib.rs:99-158 | the loop over records, with the nested ones over address hints, returns the first blocked probe |
| AnswerFilter.CheckHints | crates/bulwark-engine/src/lib.rs:133-158 | the first blocked address hint decides, parameter by parameter |
| AnswerFilter.UnambiguousAgrees | crates/bulwark-filter/src/engine.rs:439-448 | recompiling the list does not change whether an unambiguous answer is blocked |
| AnswerFilter.RewriteWins | crates/bulwark-filter/src/engine.rs:98-126 | in the compilation that lists all rewrites and then all other rules, with collisions or without, a query a rewrite can decide is not blocked |
| AnswerFilter.RecompilationsAgreeIff | crates/bulwark-filter/src/engine.rs:439-448 | all compilations agree on an answer if and only if no probe can be decided both ways or some other probe is blocked |
| Memo.TaskEntryBacked | crates/bulwark-engine/src/lib.rs:393-519 | what a miss or a refresh caches is the raw answer, with a verdict the filter it started under gives |
| Memo.ReloadKeepsInv | crates/bulwark-engine/src/lib.rs:224-226 | a reload leaves the cache alone, every cached verdict backed, and every pending task under a configuration that was live |
| Memo.EveryRunKeepsInv | crates/bulwark-engine/src/lib.rs:334-519 | in every interleaving each cached verdict is backed by a filter that was live under its generation |
| Memo.HitsFollowTheFilter | crates/bulwark-engine/src/lib.rs:334-373 | in every run a hit is blocked if and only if filtering is on for the client and the filter its query loaded blocks the cached answers for that client, as long as filters of one generation agree on them |
| Memo.ReloadedRun | crates/bulwark-engine/src/lib.rs:224-226 | a miss under one configuration followed by a reload is a run, and leaves the entry of the miss |
| Memo.HitIsRightIff | crates/bulwark-engine/src/lib.rs:334-373 | between two filters of one generation, the hit after such a reload is right if and only if both decide the answers alike |
| MemoFilter.CompiledIsUniform | crates/bulwark-engine/src/lib.rs:400-446 | a compiled filter without client-dependent rules gives all clients the verdict of one |
| MemoFilter.HitsFollowTheLiveFilter | crates/bulwark-engine/src/lib.rs:334-373 | in every run over compiled filters a hit is blocked if and only if filtering is on and the filter its query loaded blocks the cached answers |
| MemoFilter.ReloadIsRightIff | crates/bulwark-engine/src/lib.rs:334-373 | across a reload of one list a verdict stays right if and only if both compilations block the answers alike |
| MemoFilter.MemoisedVerdictsRightIff | crates/bulwark-engine/src/lib.rs:334-373 | it stays right for every two compilations of the list if and only if the answer is unambiguous |
| MemoFilter.TieIsAmbiguous | crates/bulwark-filter/src/engine.rs:439-448 | an alias to a name both blocked and rewritten is ambiguous, collisions or not |
| MemoFilter.Resolver.AnswerHit | crates/bulwark-engine/src/lib.rs:334-373 | a hit trusts the verdict of its own generation and otherwise filters the cached answers |
| MemoFilter.Resolver.CompleteMiss | crates/bulwark-engine/src/lib.rs:393-453 | the raw answers are cached with a verdict when memoising, and the asking client's own outcome is returned |
| MemoFilter.Resolver.CompleteRefresh | crates/bulwark-engine/src/lib.rs:484-519 | a refresh caches under the filter it was started with |
| DnsCache.NegativeTtl | crates/bulwark-engine/src/cache.rs:761-771 | the first SOA gives the smaller of its minimum and TTL, at least one; without any, thirty |
| DnsCache.CacheableTtl | crates/bulwark-engine/src/cache.rs:484-515 | a response is cacheable if and only if it is whole, positive or a name error, and its clamped least TTL is not zero |
| DnsCache.BaseTtlIsUnique | crates/bulwark-engine/src/cache.rs:484-515 | the unclamped lifetime is determined, and the clamp respects its bounds, the upper one first |
| DnsCache.TouchKeeps | crates/bulwark-engine/src/cache.rs:340-376 | a read reorders a shard and changes no entry |
| DnsCache.PutStores | crates/bulwark-engine/src/cache.rs:432-481 | a write stores its entry and loses another only from a full shard |
| DnsCache.RecentEntriesStay | crates/bulwark-engine/src/cache.rs:340-481 | over any run of reads, writes and expiries an unexpired entry stays while fewer distinct other keys of its shard than the shard holds are used |
| DnsCache.SizeWithinCapacity | crates/bulwark-engine/src/cache.rs:194-196 | the cache holds at most the larger of its capacity and its shard count |
| DnsCache.Cache.constructor | crates/bulwark-engine/src/cache.rs:199-225 | a new cache is empty, enabled, and has capacity at least one |
| DnsCache.Cache.Get | crates/bulwark-engine/src/cache.rs:340-405 | run alone, a hit serves the last write under exactly its key with the right remaining TTL; an expired entry is dropped and nothing else; hits and misses add up to lookups and stale hits stay within hits |
| DnsCache.Cache.Promote | crates/bulwark-engine/src/cache.rs:340-376 | a served entry becomes the most recent of its shard |
| DnsCache.Cache.Pop | crates/bulwark-engine/src/cache.rs:340-376 | dropping an expired entry touches no other |
| DnsCache.Cache.Store | crates/bulwark-engine/src/cache.rs:432-481 | a write is held afterwards, and another entry can go only from its own full shard |
| DnsCache.Cache.Insert | crates/bulwark-engine/src/cache.rs:432-481 | a response is stored if and only if the cache is on and the response cacheable, from now on and for its clamped TTL |
| DnsCache.Cache.Clear | crates/bulwark-engine/src/cache.rs:269-273 | nothing is held afterwards |
| DnsCache.Cache.Reconfigure | crates/bulwark-engine/src/cache.rs:234-258 | resizing keeps entries or drops them, disabling drops all, and the size bound holds for the new capacity |
| DnsCache.Cache.SeedCounters | crates/bulwark-engine/src/cache.rs:325-337 | counters are replaced and lookups counted anew |
| DnsCache.Cache.Len | crates/bulwark-engine/src/cache.rs:275-277 | the size is the sum over shards and within the bound |
| Lookups.EveryRunKeepsInv | crates/bulwark-engine/src/cache.rs:340-405 | in every interleaving of lookups and resets each counter is the number of lookups that have counted it since it was set |
| Lookups.StaleWithinHits | crates/bulwark-engine/src/cache.rs:347-405 | at every moment stale hits exceed hits by at most the lookups between the two increments, and both are the stated sums |
| Lookups.StaleWithinHitsIff | crates/bulwark-engine/src/cache.rs:347-405 | at any one moment stale hits are within hits if and only if no more lookups are in between than hits were plain |
| Lookups.HitsAndMissesIff | crates/bulwark-engine/src/cache.rs:325-405 | at any one moment hits and misses are the lookups begun since the counters were set if and only if as many are under way as were carried over from before |
| Lookups.ObservedStaleIff | crates/bulwark-engine/src/cache.rs:303-312 | an observer that loads hits and, later in the run, stale hits sees no more of these if and only if the lookups in between at the first load and those counting a stale hit before the second are no more than the plain hits |
| Lookups.ObservedTotalIff | crates/bulwark-engine/src/cache.rs:303-312 | hits and, later, misses as loaded add up to the lookups begun if and only if those under way and those counting a hit between the loads are as many as were carried over |
| Lookups.ObservedAcrossSeeds | crates/bulwark-engine/src/cache.rs:303-337 | with the counters set between the loads, each loaded value counts from its own base |
| Lookups.ObserverSeesMore | crates/bulwark-engine/src/cache.rs:303-312 | one whole stale lookup between the loads shows a stale hit and no hit, with no lookup in between at either load |
| Lookups.StaleCanExceedHits | crates/bulwark-engine/src/cache.rs:367-376 | between the two increments of one stale lookup there are more stale hits than hits |
| Lookups.OneLookupAlone | crates/bulwark-engine/src/cache.rs:340-405 | a lookup that runs alone counts one hit, stale or not, or one miss, as the cache object's does |
| Ageing.AgeNeverDrops | crates/bulwark-engine/src/cache.rs:562-597 | a lower bound on an answer's age survives every run of exports, restarts, imports and clock changes |
| Ageing.NeverYoungerThanAtExport | crates/bulwark-engine/src/cache.rs:562-597 | after an export the answer is never younger than it was then, whatever the clocks do |
| Ageing.RunCarries | crates/bulwark-engine/src/cache.rs:518-597 | response and TTL come through every run unchanged |
| Ageing.RunKeepsTrueAge | crates/bulwark-engine/src/cache.rs:518-597 | with an honest wall clock the cache's age is the true age over all restarts |
| Ageing.ServedByTrueAge | crates/bulwark-engine/src/cache.rs:340-376 | over any honest run an answer is fresh exactly below its TTL, with the rest of it, stale exactly within the window, and gone after |
| Ageing.ServingEndsIff | crates/bulwark-engine/src/cache.rs:80-84 | serving ends with the window if and only if TTL and window together fit 32 bits |
| Ageing.ServedForEver | crates/bulwark-engine/src/cache.rs:80-84 | an answer of one second under the largest window is served at any later time |
| Ageing.ImportedAgeSufficesIff | crates/bulwark-engine/src/cache.rs:570-586 | a restored answer is at least its true age if and only if the wall clock counted all the time since the export |
| Ageing.DishonestClockUnderstatesAge | crates/bulwark-engine/src/cache.rs:570-586 | a clock set back during downtime makes an answer look new |
| Snapshot.DecodeRecord | crates/bulwark-engine/src/cache.rs:650-711 | on arbitrary bytes a record read has its offsets inside its message, answers its key and is within the limits |
| Snapshot.RecordRoundTripIff | crates/bulwark-engine/src/cache.rs:609-711 | reading a written record whose fields fit their widths returns it and consumes exactly its bytes if it is restorable, and fails otherwise |
| Snapshot.ShorterRecord | crates/bulwark-engine/src/cache.rs:650-711 | a record read from a prefix of a buffer is the one read from the whole |
| Snapshot.TruncationRestoresPrefix | crates/bulwark-engine/src/cache.rs:578-596 | any truncation of written records reads back the whole ones before the first refused one |
| Snapshot.SnapshotRoundTrip | crates/bulwark-engine/src/cache.rs:562-597 | importing any truncation past the header restores exactly that prefix, with the export's clock |
| Snapshot.SnapshotRestoredIff | crates/bulwark-engine/src/cache.rs:562-597 | a whole snapshot is restored in full if and only if every record is restorable |
| Snapshot.OversizeRecordDropsTheRest | crates/bulwark-engine/src/cache.rs:668-671 | a record with too many answers takes all later ones with it |
| SnapshotLimits.RecordKeptIff | crates/bulwark-engine/src/cache.rs:609-711 | a written record of any size is read back if and only if it is restorable and no text in it exceeds 65535 bytes, and then consumes exactly its bytes |
| SnapshotLimits.SnapshotKeptIff | crates/bulwark-engine/src/cache.rs:562-597 | a snapshot of any records is restored in full if and only if that holds for each |
| Persist.Reader.Take | crates/bulwark-engine/src/cache.rs:736-741 | bytes are taken within bounds and the position moves by as much, or not at all |
| Persist.Reader.ReadRecord | crates/bulwark-engine/src/cache.rs:650-711 | the field-by-field reader computes the specified record and position |
| Persist.WriteRecord | crates/bulwark-engine/src/cache.rs:609-639 | the field-by-field writer appends the specified bytes |
| Persist.ExportSnapshot | crates/bulwark-engine/src/cache.rs:518-559 | the snapshot lists every encoded entry still servable, shard by shard, under the right count |
| Persist.ImportSnapshot | crates/bulwark-engine/src/cache.rs:562-597 | shards, evictions included, last writes and the count returned are those of putting the readable records that have not run out, one after another |
| Restart.ShardAfterImport | crates/bulwark-engine/src/cache.rs:578-596 | after an import into an empty cache each shard holds the last arrivals it has room for, the last one in front |
| Restart.HeldAfterImportIff | crates/bulwark-engine/src/cache.rs:578-596 | a record is held if and only if it is restored at all and fewer than a shard's room of later ones are restored into its shard |
| Restart.OnlyRecordsHeld | crates/bulwark-engine/src/cache.rs:578-596 | nothing else is held |
| Restart.ImportFresh | crates/bulwark-engine/src/cache.rs:562-597 | an import into a new cache leaves under each key of the snapshot exactly that |
| Restart.RefinedShardsOk | crates/bulwark-engine/src/cache.rs:199-225 | the shards of a valid cache have distinct keys, each in the shard of its hash, as the restart theorem asks |
| Restart.CacheKeysDistinct | crates/bulwark-engine/src/cache.rs:518-559 | an export never lists a key twice |
| Restart.ExportKeepsOrder | crates/bulwark-engine/src/cache.rs:518-559 | entries of a shard are exported most recent first |
| Restart.RecencyReversed | crates/bulwark-engine/src/cache.rs:518-597 | of two entries of one old shard that meet in a new one, the less recently used, once read, has fewer of the records read arriving after it, so it stands in front and is lost later |
| Restart.RestartHoldsIff | crates/bulwark-engine/src/cache.rs:518-597 | whatever the new shards and capacity, an encoded servable entry is held after the restart, with its response and TTL and aged by the wall clock, if and only if it is exported before the first refused record, has not run out, and fewer than a shard's room of later records go to its new shard |
| Restart.RecentEntryLost | crates/bulwark-engine/src/cache.rs:518-597 | with room for one in a new shard, the more recent of two entries of an old shard that meet there is lost whenever the other is restored |
| Restart.LastUsedIsLost | crates/bulwark-engine/src/cache.rs:518-597 | a cache of eight shards with two entries in one, restarted at capacity eight into one shard, loses the entry used last and holds the other |
| Wire.SkipNameLoop | crates/bulwark-engine/src/wire.rs:7-18 | the cursor loop ends a name at its root or its pointer, or fails |
| Wire.ScanTtlOffsets | crates/bulwark-engine/src/wire.rs:20-57 | the scan returns the TTL offsets of all records but OPT, cut to 32 bits, or fails on malformed input |
| Wire.PatchInPlace | crates/bulwark-engine/src/wire.rs:60-71 | patching overwrites the id and the TTL slots of the buffer and nothing else |
| Wire.PatchMapsOverRecords | crates/bulwark-engine/src/wire.rs:7-71 | patching a scannable message is mapping over its parsed records: new id, new TTL but for OPT, all else identical, same offsets on rescan |
| Wire.LastPatchWins | crates/bulwark-engine/src/wire.rs:60-71 | of two patches the second decides |
| Wire.StoredOffsetsPatchIff | crates/bulwark-engine/src/wire.rs:41-71 | patching at the offsets as stored is patching at the records' TTLs, for every TTL, if and only if every offset fits 32 bits |
| Question.ReadQuestionName | crates/bulwark-engine/src/wire.rs:91-127 | the label loop computes the specified name and end, or bails out |
| Question.QuestionNameRoundTrip | crates/bulwark-engine/src/wire.rs:91-127 | re-encoding the name gives back exactly the bytes consumed, and the text has at most 254 characters |
| Question.NamesEqualIffBytesEqual | crates/bulwark-engine/src/wire.rs:91-127 | two accepted names are equal if and only if their wire bytes are |
| Question.ScanEdns | crates/bulwark-engine/src/wire.rs:150-178 | the record walk accepts if and only if all records parse and any OPT is alone, in the additional section and well placed, and reports its payload and DO bit |
| Question.ParseQuery | crates/bulwark-engine/src/wire.rs:130-191 | a query is accepted if and only if header, single question and records are, and every field returned is the one on the wire |
| HeavyHitters.FindMin | crates/bulwark-engine/src/stats.rs:150-169 | the iteration finds a least counter |
| HeavyHitters.Bump | crates/bulwark-engine/src/stats.rs:150-169 | an observation is counted, admitted, or takes over a least counter |
| HeavyHitters.BumpAddsWeight | crates/bulwark-engine/src/stats.rs:150-169 | counters grow in sum by exactly the weight observed |
| HeavyHitters.EveryRunIsBounded | crates/bulwark-engine/src/stats.rs:148-169 | from any counters, over every stream and every choice of least counters, the bounds below hold key by key |
| HeavyHitters.SpaceSavingFrom | crates/bulwark-engine/src/stats.rs:148-177 | the bounds below from any start, such as merged counters of more than cap keys loaded into one shard |
| HeavyHitters.SpaceSaving | crates/bulwark-engine/src/stats.rs:148-169 | after N observations: at most cap keys, counters summing to N, each at least the true count and over by at most N/cap, every key above N/cap tracked |
| HeavyHitters.MergeTotal | crates/bulwark-engine/src/stats.rs:172-177 | merging adds the sums |
| HeavyHitters.MergedError | crates/bulwark-engine/src/stats.rs:172-177 | merged estimates are off by at most a share of the total, however records fall to shards |
| HeavyHitters.MergedEstimate | crates/bulwark-engine/src/stats.rs:172-177 | the same as a bound of N/cap on either side |
| Quantile.HistIndexFrom | crates/bulwark-engine/src/stats.rs:20-25 | a latency goes to the first bucket whose bound it does not exceed |
| Quantile.ComputeQuantile | crates/bulwark-engine/src/stats.rs:458-479 | the accumulating loop computes the specified interpolation |
| Quantile.QuantileInBucket | crates/bulwark-engine/src/stats.rs:447-479 | a quantile lies in the bucket holding the target rank, between 0 and 1000 ms |
| Quantile.QuantileMonotone | crates/bulwark-engine/src/stats.rs:458-479 | a larger q never gives a smaller quantile |
| Quantile.PercentilesOf | crates/bulwark-engine/src/stats.rs:481-488 | p50 <= p90 <= p99 for every histogram |
| Stats.RecordIn | crates/bulwark-engine/src/stats.rs:246-335 | one record changes a shard's counters, estimators, histograms and series as specified, whatever the length of its histograms as long as its buckets exist |
| Stats.RecordingConserves | crates/bulwark-engine/src/stats.rs:246-335 | recording keeps the balance of totals, estimator sums and latency histogram |
| Stats.ShardsConserve | crates/bulwark-engine/src/stats.rs:79-124 | merging balanced shards is balanced, and totals add up |
| Stats.MergedSeriesStrict | crates/bulwark-engine/src/stats.rs:346-358 | the merged series has strictly increasing hours within the retention |
| Stats.MergedConserves | crates/bulwark-engine/src/stats.rs:346-358 | the merged snapshot is balanced over its first eleven buckets and its total is the shards', whatever lengths were loaded |
| Stats.MergedHourTotals | crates/bulwark-engine/src/stats.rs:79-124 | each hour's merged count is the sum over shards |
| Stats.ImportReproduces | crates/bulwark-engine/src/stats.rs:422-442 | importing an exported snapshot and merging gives the same snapshot |
| Stats.Collector.Record | crates/bulwark-engine/src/stats.rs:246-335 | an enabled record changes one shard only, keeps the whole balanced, and shortens no histogram |
| Stats.Collector.Reset | crates/bulwark-engine/src/stats.rs:338-343 | all shards are empty and balanced, with room for every record |
| Stats.Collector.Merged | crates/bulwark-engine/src/stats.rs:346-358 | from shards loaded with histograms of any length, the merged total is the number of records taken, with all sums balanced and histograms of eleven buckets |
| Stats.Collector.Export | crates/bulwark-engine/src/stats.rs:411-420 | the export is the merged state with the cache counters |
| Stats.Collector.Import | crates/bulwark-engine/src/stats.rs:422-442 | a readable import replaces all shards, whatever its histograms, and returns its cache counters; it is balanced if the import is, and has room for every record if and only if the import does; an unreadable one changes nothing |
| Stats.RecordsInRangeIff | crates/bulwark-engine/src/stats.rs:246-313 | every later record finds its buckets if and only if no loaded histogram is too short |
| Stats.ShortHistogramFails | crates/bulwark-engine/src/stats.rs:246-313 | with a loaded histogram of one bucket a slow answer finds none |
| Health.BackoffIsMonotone | crates/bulwark-upstream/src/pool.rs:81-84 | more failures never shorten the recovery delay, which stays between five seconds and a minute |
| Health.Upstream.RecordLiveSuccess | crates/bulwark-upstream/src/pool.rs:210-220 | the fields after a live success |
| Health.Upstream.RecordProbeSuccess | crates/bulwark-upstream/src/pool.rs:223-231 | the fields after a measured probe |
| Health.Upstream.RecordProbeAlive | crates/bulwark-upstream/src/pool.rs:234-247 | the fields after a probe that answered but was not measured |
| Health.Upstream.RecordLiveFailure | crates/bulwark-upstream/src/pool.rs:249-254 | the fields after a hard live failure |
| Health.Upstream.RecordProbeFailure | crates/bulwark-upstream/src/pool.rs:257-261 | the fields after a failed probe |
| Health.Upstream.RecordSoftFailure | crates/bulwark-upstream/src/pool.rs:274-279 | the fields after a query-level failure, which leaves up and down alone |
| Health.RunIsSound | crates/bulwark-upstream/src/pool.rs:208-279 | along every run queries equal samples plus failures, and up means below the threshold |
| Health.SoundIffThreshold | crates/bulwark-upstream/src/pool.rs:264-271 | that holds from a new upstream if and only if the threshold is at least one |
| Health.AdoptedSoundIff | crates/bulwark-upstream/src/pool.rs:526-538 | adopted health fits a new threshold if and only if its failures are on the same side of both |
| Health.AdoptionCanBreakSoundness | crates/bulwark-upstream/src/pool.rs:526-538 | two failures at threshold two, adopted at three, are down below the threshold |
| Health.LiveEwmaStaysWithin | crates/bulwark-upstream/src/pool.rs:108-114 | smoothed live latency stays between the smallest and largest sample of any run |
| Health.ProbeEwmaStaysWithin | crates/bulwark-upstream/src/pool.rs:108-114 | so does smoothed probe latency |
| Health.EwmaBoundedIff | crates/bulwark-upstream/src/pool.rs:108-114 | smoothing stays within its inputs if and only if the factor is between 0 and 1 |
| Ranking.SortByKeyIsStableSort | crates/bulwark-upstream/src/pool.rs:432-434 | the sort is a permutation, ordered by key and then by configuration |
| Ranking.StableOrderIsUnique | crates/bulwark-upstream/src/pool.rs:432-434 | only one order is stable, so any stable sort gives it |
| Ranking.SelectIsPermutation | crates/bulwark-upstream/src/pool.rs:432-461 | every upstream is listed once |
| Ranking.TailStaysSorted | crates/bulwark-upstream/src/pool.rs:432-461 | apart from a held leader the order is the stable one |
| Ranking.CleanComesFirst | crates/bulwark-upstream/src/pool.rs:296-312 | no down, unsampled or probationary upstream precedes a clean sampled one |
| Ranking.DownComesLast | crates/bulwark-upstream/src/pool.rs:296-304 | no down upstream precedes one that is up |
| Ranking.LeadLostOnlyToFaster | crates/bulwark-upstream/src/pool.rs:438-453 | an eligible incumbent loses the lead if and only if the front of the stable order is faster by more than the margin, and then to that one |
| Ranking.LeaderIsNearlyFastest | crates/bulwark-upstream/src/pool.rs:432-461 | the leader is within the margin and a millisecond of rounding of every eligible upstream |
| Ranking.RepeatedSelectionIsStable | crates/bulwark-upstream/src/pool.rs:432-461 | ranking again with unchanged health gives the same order |
| Pool.SettledIsUnique | crates/bulwark-upstream/src/pool.rs:626-681 | the outcomes determine how many upstreams are contacted and what is returned |
| Pool.FailsIffNoResponse | crates/bulwark-upstream/src/pool.rs:626-681 | a query fails if and only if no upstream responds, and what it returns comes from one it contacted |
| Pool.FailoverKeepsSound | crates/bulwark-upstream/src/pool.rs:626-681 | failing over keeps every upstream's invariant |
| Pool.RecordingCountsOne | crates/bulwark-upstream/src/pool.rs:208-279 | any live outcome counts one query over the pool |
| Pool.RankingIsInvisible | crates/bulwark-upstream/src/pool.rs:454-459 | noting ranks affects neither ranking nor the invariant |
| Pool.UpstreamPool.Ordered | crates/bulwark-upstream/src/pool.rs:432-461 | the order, the leader and the noted ranks are as specified, and ordering again repeats it |
| Pool.UpstreamPool.NoteRanks | crates/bulwark-upstream/src/pool.rs:454-459 | each upstream notes its position, capped at 65535, and only a held leader the hold |
| Pool.UpstreamPool.AdoptHealthFrom | crates/bulwark-upstream/src/pool.rs:526-538 | each upstream takes over the health of the last one of its identity in the old pool, and keeps its own if there is none |
| Pool.AdoptionSoundIff | crates/bulwark-upstream/src/pool.rs:526-538 | a pool that adopts from a sound one is sound under its own threshold if and only if no adopted failure count lies between the two thresholds |
| Pool.UpstreamPool.ResolveSequential | crates/bulwark-upstream/src/pool.rs:626-681 | a prefix of the order is contacted once each; the first answer, else the first response, else the last error is returned; exactly the contacted record their outcome |
| Pool.UpstreamPool.Resolve | crates/bulwark-upstream/src/pool.rs:462-509 | an empty pool is refused; otherwise ranking and failover combine and keep every upstream's invariant |
| SingleFlight.EveryRunKeepsInv | crates/bulwark-upstream/src/pool.rs:361-370 | every interleaving, dropped callers included, keeps guards and entries matched and served callers faithful |
| SingleFlight.EntryIffGuard | crates/bulwark-upstream/src/pool.rs:361-370 | an entry exists exactly while one inserter holds its guard |
| SingleFlight.CoalescedCallersAgree | crates/bulwark-upstream/src/pool.rs:493-508 | callers of one future asked the same question and get the same result, each under its own id |
| SingleFlight.StepKeepsCoverIff | crates/bulwark-upstream/src/pool.rs:462-509 | a step leaves every live future joinable if and only if it does not drop an inserter others wait on |
| SingleFlight.OneFlightPerKey | crates/bulwark-upstream/src/pool.rs:462-509 | in runs without such a drop at most one unfinished future per question is ever polled |
| SingleFlight.CoveredIff | crates/bulwark-upstream/src/pool.rs:462-509 | from a reachable state a question can come to be asked twice at once if and only if a live future is already missing from the map |
| SingleFlight.DroppedInserterDuplicates | crates/bulwark-upstream/src/pool.rs:361-370 | dropping an inserter others wait on leads to such a state |
| Demux.EveryRunKeepsInv | crates/bulwark-upstream/src/plain.rs:96-156 | in every run the map holds exactly the waiters, each under its own id, frames only reach their id, and closed means dead and empty |
| Demux.ClosedForever | crates/bulwark-upstream/src/plain.rs:153-156 | once torn down the connection stays dead and empty and nobody waits |
| Demux.TeardownWakesWaiters | crates/bulwark-upstream/src/dot.rs:103-113 | tearing down wakes every waiter and touches no other exchange |
| Demux.TeardownDropsNobodyIff | crates/bulwark-upstream/src/plain.rs:153-156 | teardown leaves all exchanges as they were if and only if no waiter is registered |
| Demux.UdpIdleCloseDropsNobody | crates/bulwark-upstream/src/plain.rs:144-156 | an idle UDP close finds no waiter and admits none before its teardown |
| Demux.IdleCloseDropsNobodyIff | crates/bulwark-upstream/src/dot.rs:103-113 | after an idle close, whatever happens before the teardown, nobody is dropped if and only if nobody waits by then; on UDP nobody ever is |
| Demux.LiveIdsDistinct | crates/bulwark-upstream/src/plain.rs:96-100 | with fewer than 65536 starts during any one exchange, outstanding ids are distinct |
| Demux.FrameReachesItsSender | crates/bulwark-upstream/src/plain.rs:135-142 | then a frame completes an exchange if and only if that one waits under its id, and no other live one has it |
| Demux.NoSpuriousFailure | crates/bulwark-upstream/src/transport.rs:20-37 | then no waiter is woken empty-handed while the connection is up |
| Demux.WakesAnotherIff | crates/bulwark-upstream/src/transport.rs:20-37 | registering or leaving wakes another waiter empty-handed if and only if that one stands under the same id |
| Demux.StepKeepsWokenIff | crates/bulwark-upstream/src/plain.rs:96-156 | a step of any kind leaves nobody woken empty-handed on a live connection if and only if it does not do that |
| Demux.NoSpuriousFailureIff | crates/bulwark-upstream/src/plain.rs:96-156 | over every run, waiters are woken by their frame or the teardown only if and only if no step does that |
| Demux.SpacedNeverDisplaces | crates/bulwark-upstream/src/plain.rs:96-115 | with fewer than 65536 starts during any one exchange no step does |
| Demux.WrapLosesWaiter | crates/bulwark-upstream/src/plain.rs:96-115 | after 65536 starts during one exchange its waiter can be lost on a live socket |
| Demux.TlsIdleCloseDropsWaiter | crates/bulwark-upstream/src/dot.rs:103-113 | an idle TLS connection drops the waiter it has, and one registered between the idle window and the teardown |
| Demux.Connection.BeginExchange | crates/bulwark-upstream/src/plain.rs:96-100 | the next id is taken and the counter wraps at 65536 |
| Demux.Connection.AddWaiter | crates/bulwark-upstream/src/plain.rs:102-109 | a waiter is registered unless the connection is dead, replacing any under its id |
| Demux.Connection.HandleFrame | crates/bulwark-upstream/src/plain.rs:135-142 | a frame goes to the waiter under its id, who leaves the map |
| Demux.Connection.DropGuard | crates/bulwark-upstream/src/transport.rs:27-37 | ending an exchange removes whatever is registered under its id |
| Demux.Connection.HandleIdle | crates/bulwark-upstream/src/plain.rs:144-150 | an idle window closes a UDP socket only without waiters, a TLS one always |
| Demux.Connection.CloseDown | crates/bulwark-upstream/src/plain.rs:153-156 | teardown marks the connection dead and drops every sender |

## Left out

- Rule text parsing, `$badfilter` pairing and signature de-duplication: rules enter as parsed values; that two rules of equal signature mean the same is not claimed.
- Regular expressions and their compilation, hickory message encoding and decoding, and UTF-8: library code, taken as parameters.
- Byte-level tokenisation of names outside ASCII: names are sequences of characters, and the lookup is proved for ASCII names.
- Arena offsets and rule ids of 32 bits, and counters of 64 bits: unbounded integers here.
- Raw rule text kept for display and log attribution: only the winning rule's number is modelled.
- MemoFilter.HitsFollowTheLiveFilter: takes equal content hashes to mean equal rule lists, which also assumes that rule text determines the parsed rule; the cache in it forgets at will, which the cache object refines.
- DnsCache.Cache.Get: one lookup at a time; `Lookups` has any number of them interleave at the lock and at each counter increment. Patching the served bytes is in `Wire`.
- Lookups.HitsAndMissesIff: setting the counters is one step, although it is one store for each.
- Restart.RestartHoldsIff: takes texts of the exported records to fit their length fields; `SnapshotLimits` has the records for which that fails.
- Snapshot.RecordRoundTripIff: for records whose texts fit their length fields; `SnapshotLimits.RecordKeptIff` has the others.
- Pool.UpstreamPool.Ordered: ranks one consistent view of all upstreams, although sort keys and latencies are read under each upstream's own lock, one after another and more than once.
- Pool.UpstreamPool.ResolveSequential: recording is one run at a time; other recordings that interleave are covered per upstream by `Health.RunIsSound`.
- Stats.Collector: retention is given in hours, and the exported text form is left abstract.
- Compression pointers are skipped, not followed, as in the code; decompression is left to the message library.
- Replacing a dead connection and retrying once on a fresh one, truncation fallback to TCP, bootstrap, TLS, DoH and DoQ: network clients.
- Probe scheduling, jitter and start-up spread; the HTTP API, authentication, configuration loading, listeners, block-response synthesis and logs: plumbing that would only add easy members.
