# TuxDNS-Hole: a verified model

TuxDNS-Hole is a filtering DNS resolver. A request passes a filter (hash sets, a trie over reversed labels,
regular expressions), a response cache (least recently used, with clamped times to live), a privacy transform
(client-subnet stripping, DNS 0x20 casing, EDNS(0) padding), a pool of upstream resolvers, and a screening of
the response (CNAME uncloaking, rebinding protection). What passes is stored and sent; everything is noted in a
ring buffer in memory.

The model follows the program's own form. What it updates in place is a class here: the trie and its nodes, the
two sides of a snapshot, the engine, messages and records, the cache with its map and recency list, the ring
buffer, the forwarder and the handler. Each such class is proved against a function or relation on values. The
properties proper are lemmas about those values, over all inputs and all runs. What runs concurrently is a step
machine with an invariant.

| file | contents |
|---|---|
| `Text`, `Labels`, `Arithmetic` | string functions, domain labels and their right-to-left scanner, remainders |
| `Loader`, `LoaderFixpoint`, `HostsLines`, `Normalizing` | blocklist parsing and its laws, what a line yields, what normalising takes off |
| `DomainTrie` | the trie on the heap |
| `FilterRules`, `FilterEngine`, `SnapshotSwap` | the flat specification of filtering, the engine on the heap, reloads interleaved with queries |
| `NameRules` | what entries and lists mean for names, by names and string suffixes alone |
| `Messages` | message values and message objects |
| `CacheModel`, `CacheRuns`, `CacheTimes`, `Cache`, `CacheIsolation` | the cache as an association list, its runs, what it accepts and for how long, its map and list on the heap, deep-copy isolation |
| `Casing`, `Edns`, `PaddingLaws`, `UpstreamQuery` | the query sent upstream |
| `LocalNames`, `LocalTrie` | private addresses, allowed local names, agreement with the trie |
| `RingBuffer`, `RingSteps` | the query log, sequential and with two-step pushes |
| `Forwarder`, `ParallelForward` | the three strategies, fairness of round robin, the concurrent fan-out |
| `HandlerModel`, `Handler` | one request, on values and on the heap |
| `Replies` | what replies hold, field by field |
| `Pipeline`, `SequentialRuns` | requests and reloads interleaved step by step; an uninterrupted request does what one request is specified to do |
| `Progress`, `PipelineCache`, `Provenance`, `CalmRuns`, `Spelling` | more about runs of the machine: one reply for each request, its cache as a run of lookups and stores, hits as repeated forwards, runs without a reload in mid-request, and whose spelling a reply carries |
| `HandlerRuns` | the handler on the heap kept in step with the machine |
| `StaleAliases`, `StaleHistories` | what a reload does not undo, for one load after another and for any history |

How the parts meet: `Handlers.Handler.ServeDNS` equals `Serve` on the abstract state; `SequentialRuns.ServeIsRun`
makes `Serve` a run of the step machine; `Pipeline` proves what every run of the machine keeps. `HandlerRuns` puts
this together on the heap: a relation between a handler and a reachable state of the machine holds for a new
handler and is kept by `ServeDNS` and by `LoadRules`, so the screening results hold of the replies of the handler
itself: a reply just forwarded has no alias of a name that its filter now blocks, and one from the cache none that
the filter blocked when the same response was forwarded before. `PipelineCache` does the same for the cache: what
`CacheRuns` proves of lookups and stores holds of requests and replies. The verdicts that the machine consults are
those of rule tables; `FilterEngine` builds such tables on the heap, `RepresentsMeaning` says what they decide, and
`SnapshotSwap` justifies taking one look at the filter as one step: each answer is that of the source in force at
one moment between the start of its query and its reply, and a reload takes effect when it publishes.

Specification functions are themselves given a meaning in plainer terms: entries and lists by the names and suffixes
that they block (`NameRules`), lines by the words in them (`HostsLines`), acceptance and expiry by the times of the
records (`CacheTimes`), replies by their fields and refusals by the kinds of records (`Replies`). `Pipeline` and
`HandlerRuns` state their results in these terms.

Where the code departs from what one would expect, the code is followed:

- Normalising a domain takes off one trailing dot, so it is not idempotent (`NormalizeNotIdempotent`). The exact
  sets see a domain normalised once and the trie one normalised twice; the flat specification says both. Regular
  expressions see the name as it is after one normalisation.
- The diagram in the repository's `README.md` (lines 71-75) screens for rebinding before it uncloaks aliases;
  `handler.go` does it the other way round. Both lead to the same sinkhole reply.
- Cached answers are not screened again. With uncloaking on, loading one table after another leaves the cache
  serving an alias that the newer one blocks exactly when, of two names that the older one lets through, the newer
  one blocks the second and not the first (`StaleExactly`; `StaleTracker` is a concrete pair of blacklists). Over
  any history, with requests in progress while tables are loaded, the name may be let through by one table and the
  alias by a later one (`StaleInHistory`). `NoCloaking` says which tables vouch for an alias: those in force from the moment the response was taken from the
  resolver until it was stored or sent.
- A reply need not spell the name as its client did: a hit carries the spelling of the client that the response was
  first given for. `SpellingOfGiven` says when the two agree, and `SpeltInCapitals` is a run in which they do not.
- Only the last OPT record is stripped of client subnets. None leaves exactly when no other OPT record had one
  (`ClientSubnetStripped`; `TwoOptsDisclose` is a message with two).
- Re-parsing a parsed list is not always the identity (`ReparseFixpoint` says when, `DottedLine` is a line for which
  it is not), because of trailing dots and of `127.0.0.1`, which is taken as the start of a hosts-file line.
- The stored time to live may be below the floor when the ceiling is lower than the floor (`ClampedBounds` says
  when, `CeilingWins` is an instance).
- Round robin is fair in every window of `n` calls except where the window straddles the wrap of the 64-bit
  counter and `n` does not divide 2^64 (`FairWindows`).
- The ring can lose a recent entry. With no push in flight it holds exactly the last tickets if and only if no
  store of one of them is followed by another store into its slot (`HoldsLastExactly`); while the counter's wrap
  does not show, that is a store of an older ticket congruent to it (`HoldsLastUnwrapped`). `LosingRun` is a run
  that loses the newest entry, for every size.
- Reading the ring back is right except where the walk crosses a wrap of the 64-bit counter and the size does not
  divide 2^64; for logs of all-different entries `GetRecent` says exactly where.

## Model

| member | source | states |
|---|---|---|
| Labels.PreviousLabel | internal/filter/engine.go:140-158 | one turn of the backwards scanner yields the last label of the part not yet scanned, by the reference that splits, drops empty labels and reverses; empty labels contribute nothing |
| Labels.ReverseLabelsConcat | internal/filter/engine.go:140-158 | reversed labels of a dotted concatenation are those of the right part followed by those of the left part |
| Tries.DomainTrie.constructor | internal/filter/engine.go:34-38 | a new trie is a well-formed tree that holds no rule |
| Tries.DomainTrie.HasRules | internal/filter/engine.go:41-45 | true exactly when some rule was ever accepted |
| Tries.DomainTrie.Insert | internal/filter/engine.go:49-92 | the tree stays well-formed, with flags exactly at the accepted rules and none at the root; the accepted rules grow by the rule of this pattern, or by nothing when it has no label |
| Tries.DomainTrie.Walk | internal/filter/engine.go:66-82 | ends at the one node whose path is the reversed labels, growing the tree as needed, and reports whether there was any label |
| Tries.DomainTrie.Matches | internal/filter/engine.go:95-137 | true exactly when the reversed labels of the normalised domain equal those of some exact rule or extend those of some wildcard rule, in spite of stopping early |
| FilterRules.BlockedMonotone | internal/filter/engine.go:328-371 | more blacklist patterns can only block more |
| FilterRules.ConfigMonotone | internal/filter/engine.go:225-312 | adding whitelist entries and dropping blacklist entries, expressions, or domains of the files and fetched lists never blocks a domain that was not blocked before |
| FilterRules.RepresentsMeaning | internal/filter/engine.go:328-371 | a loaded table blocks a domain exactly when the flat specification does: non-empty after normalising, no whitelist pattern matches, some blacklist pattern or expression does |
| FilterRules.MergeOrderIrrelevant | internal/filter/engine.go:282-315 | in whatever order the fetched lists are merged, the loaded table gives the same answer for every domain and the same total, duplicates counted |
| FilterEngine.RuleSide.Add | internal/filter/engine.go:225-248 | one cleaned entry goes to the trie when it is a suffix pattern and to the hash set otherwise; the side then holds what it held and that pattern (NameRules.BlockedByName says for which names) |
| FilterEngine.RuleSide.Holds | internal/filter/engine.go:343-361 | true exactly when the set holds the name or some trie rule matches it |
| FilterEngine.RuleSide.MergeFetched | internal/filter/engine.go:282-312 | merging the fetched lists in an arbitrary order gives the names, and up to order the rules, of all of them |
| FilterEngine.Engine.LoadRules | internal/filter/engine.go:197-325 | with blocking on, the new snapshot represents the patterns of the configuration and of every list that could be read, with its total; with blocking off nothing changes; the old snapshot is never written |
| FilterEngine.Engine.IsBlocked | internal/filter/engine.go:328-371 | true exactly when blocking is on and the table of the current snapshot blocks the domain |
| NameRules.BlockedByName | internal/filter/engine.go:225-371 | for entries and listed domains written `name`, `*.name` or `.name`: a name, with no, one or two final dots, is blocked exactly when no whitelist entry is for it and a blacklist entry or listed domain is, or an expression matches; `name` is for that name only, the other two for it and every name that ends in a dot and it |
| NameRules.TableBlocksByName | internal/filter/engine.go:328-371 | so does every table loaded from them, in whatever order the lists were merged |
| NameRules.RequestBlockedByName | internal/dns/handler.go:76-83 | so it is for the canonical form of a name, under which requests and aliases are looked up |
| NameRules.NoEmptyName | internal/filter/engine.go:225-274 | blank entries put nothing into a table, not even an empty name |
| SnapshotSwap.NextInv | internal/filter/engine.go:197-325 | each step of a reload or a query keeps the invariant: what is published or loaded is complete, and what is being filled amounts to its source together with the batches not yet merged |
| SnapshotSwap.PublishedIsInForce | internal/filter/engine.go:314-315 | what is published is, at any moment, a complete snapshot of what the most recent completed reload was given |
| SnapshotSwap.AnswersAreAtomic | internal/filter/engine.go:314-371 | in every interleaving of reloads and queries each answer is the flat verdict of the source in force at one moment between the start of its query and its reply |
| SnapshotSwap.LoadedNeverChanges | internal/filter/engine.go:211-222 | no step writes to the published snapshot or to one that a query has loaded |
| Loader.NormalizeFixpoint | internal/filter/loader.go:142-150 | normalising leaves a string alone exactly when it is trimmed, in lower case and free of the stripped prefixes and suffixes |
| Loader.NormalizeNotIdempotent | internal/filter/loader.go:142-150 | a domain with two trailing dots needs two passes |
| Normalizing.NormalizeAdorned | internal/filter/loader.go:142-150 | normalising takes off surrounding white space, one double bar and then one caret in front, one caret and then one dot at the end, any of them present or not, and leaves the name in lower case |
| Normalizing.NormalizeAdblock | internal/filter/loader.go:142-150 | an entry in the style of ad blockers, with its bars and caret, comes out as the bare name |
| Loader.DistinctInOrder | internal/filter/loader.go:78-97 | deduplication keeps each token once, in order of first occurrence |
| Loader.ParsedConcat | internal/filter/loader.go:32-102 | parsing one list after another is parsing the first followed by the domains of the second that are new |
| Loader.ParseHosts | internal/filter/loader.go:32-102 | the loop over lines with its map of seen domains returns the distinct valid normalised tokens in order of first occurrence |
| HostsLines.HostsLine | internal/filter/loader.go:54-97 | anywhere in a list, a line of one of the four addresses and hosts yields what the hosts one to a line yield |
| HostsLines.NamesLine | internal/filter/loader.go:54-97 | so does a line of several names |
| HostsLines.CommentedLine | internal/filter/loader.go:46-52 | a comment mark and what stands after it change nothing |
| HostsLines.LoopbackHost | internal/filter/loader.go:60-73 | 127.0.0.1 is listed as a host behind an address and yields nothing on a line of its own |
| HostsLines.WrittenLine | internal/filter/loader.go:32-171 | a line with one name, bare or prefixed, yields it in lower case, except when that is longer than 253 characters or one of thirteen reserved names, or the line is 127.0.0.1 |
| HostsLines.ForbiddenExactly | internal/filter/loader.go:152-171 | behind its prefix a domain may have, of the printable ASCII characters, just letters, digits, hyphens, underscores, dots, plus, comma, equals and the apostrophe |
| HostsLines.LinesProvide | internal/filter/loader.go:32-102 | a list with one rule to a line provides these rules to the filter |
| LoaderFixpoint.ReparseFixpoint | internal/filter/loader.go:32-102 | re-parsing the parsed domains, one a line, gives the same list exactly when none ends in a dot or is 127.0.0.1 |
| LoaderFixpoint.DottedLine | internal/filter/loader.go:142-150 | a line with two trailing dots, of which each parse takes off one |
| Messages.Msg.Copy | internal/dns/cache.go:107 | a deep copy: an equal value in new objects, none shared with the original or with one another |
| Messages.UpdateRecordTTLs | internal/dns/cache.go:223-230 | every record but OPT gets the new time to live; nothing else changes |
| CacheModel.ClampedBounds | internal/dns/cache.go:137-148 | a stored time to live is positive, at most a positive ceiling, at the floor or above it exactly when a positive ceiling is not below the floor, and fits in int64 nanoseconds |
| CacheModel.CeilingWins | internal/dns/cache.go:137-145 | with a ceiling of 50 seconds and a floor of 100 every time to live is stored as 50 |
| CacheTimes.ClampedExactly | internal/dns/cache.go:137-145 | a time to live inside the limits is kept, below them it is stored as the floor and above them as the ceiling; a ceiling below the floor wins |
| CacheModel.LeastTTLBounds | internal/dns/cache.go:195-221 | the least time to live is that of some record other than OPT, and none is lower |
| Caches.CalculateMinTTL | internal/dns/cache.go:195-221 | the three scanning loops give the least time to live, or 60 when there is no record |
| Caches.Cache.constructor | internal/dns/cache.go:38-60 | an empty cache with the defaults filled in, disabled for a non-positive size |
| Caches.Cache.Get | internal/dns/cache.go:72-116 | the map and recency list do what the association list does: expired entries go, found ones move to the front, and the reply is the stored message under the new id with remaining times, in new objects |
| Caches.Cache.Set | internal/dns/cache.go:119-176 | the map and recency list do what the association list does: an acceptable response becomes the first entry, replacing its key's old one or, in a full cache, the last |
| CacheRuns.RunOrdered | internal/dns/cache.go:72-185 | after every run keys are distinct, the size is at most the limit, and entries stand strictly by last touch |
| CacheRuns.VictimIsLeastRecent | internal/dns/cache.go:163-185 | storing a new key in a full cache drops the entry touched longest ago, and only that |
| CacheRuns.KeySurvives | internal/dns/cache.go:72-185 | a touched key stays while fewer distinct other keys than the limit are touched after it, unless a lookup finds it expired |
| CacheRuns.HitServesLastStore | internal/dns/cache.go:106-115 | in every run a hit is the message of the last accepted store of its key, changed in id and non-OPT times only |
| CacheRuns.HitTTL | internal/dns/cache.go:101-113 | with a nondecreasing clock every served time lies between 1 and the stored one, is less than a second short of expiry and reaches at most a second past it |
| CacheRuns.HitsNeverIncrease | internal/dns/cache.go:101-113 | of two hits on one stored entry the later serves no longer time to live |
| CacheTimes.AcceptsExactly | internal/dns/cache.go:119-135 | a response is accepted exactly when the cache is on, the request has a question, the code is 0 or 3, nothing was truncated and no record other than OPT has time zero |
| CacheTimes.StoredFor | internal/dns/cache.go:119-176 | in every run an entry holds the response of the last accepted store under its key and expires when the least time of its records, or 60 seconds without records, has passed since; later only if the floor raised it, earlier only if the ceiling lowered it |
| CacheTimes.HitsExactly | internal/dns/cache.go:72-98 | in every run a lookup hits exactly when the cache is on, the request has a question, and there is an entry under its key whose time has not passed |
| CacheTimes.StoredIsServed | internal/dns/cache.go:72-176 | a stored response is served until it expires, while fewer other keys than the limit are touched, it is not stored over, and no lookup comes too late |
| CacheIsolation.StoreThenScribble | internal/dns/cache.go:154-175 | whatever the caller does to a message after storing it, the cache holds what was stored |
| CacheIsolation.HitThenScribble | internal/dns/cache.go:106-115 | whatever the caller does to a served message, the cache holds what it held |
| Casing.Randomize0x20 | internal/dns/opsec.go:52-77 | each letter takes the case its random bit says and nothing else changes: same length, lower-case form and cache name, with every bit read in bounds |
| Casing.EveryCasingReachable | internal/dns/opsec.go:52-77 | every casing of a name comes out of some random bytes |
| Text.CanonicalIgnoresCase | internal/dns/cache.go:63-69 | names that differ in case only have one canonical form, escaped dots included |
| Text.CanonicalExactly | internal/dns/cache.go:63-69 | two names have one canonical form exactly when, both fully qualified, they are equal letter by letter up to case |
| Text.CanonicalPlain | internal/dns/cache.go:63-69 | a name without backslashes gets a final dot exactly when it has none, and lower case |
| Edns.ApplyEDNS0Padding | internal/dns/opsec.go:19-49 | the in-place edit of the message is the padded value |
| PaddingLaws.PaddedIsAligned | internal/dns/opsec.go:19-49 | one padding option, last, after all others in order, with as many bytes as make the length the least multiple of the block that fits an empty padding option |
| PaddingLaws.PaddingForgotten | internal/dns/opsec.go:27-33 | the result does not depend on the padding present before |
| PaddingLaws.PaddedIdempotent | internal/dns/opsec.go:19-49 | padding twice is padding once |
| UpstreamQuery.PrepareUpstreamQuery | internal/dns/handler.go:160-195 | works on new objects only, leaves the client's message as it was, and yields the prepared value |
| UpstreamQuery.PreparedLaws | internal/dns/handler.go:160-195 | same question and cache key up to case, the first name with each letter in the case its random bit says when DNS 0x20 is on and as it was when off, everything outside the last OPT record as it was, other options kept in order and with padding off the padding options too, no client subnet in it, its UDP size and other fields kept, DO as it was or set with DNSSEC, the defaults for a new record, a multiple of the block with padding |
| UpstreamQuery.ClientSubnetStripped | internal/dns/handler.go:170-178 | no client subnet leaves exactly when no OPT record but the last had one |
| UpstreamQuery.OneOptNoSubnet | internal/dns/handler.go:170-178 | with at most one OPT record none leaves |
| UpstreamQuery.TwoOptsDisclose | internal/dns/handler.go:168-178 | a message with two OPT records whose client subnet leaves under every configuration |
| LocalNames.LocalIPv4 | internal/dns/opsec.go:85-102 | an IPv4 address, plain or mapped, is refused exactly when its number lies in the listed ranges |
| LocalNames.LocalIPv6 | internal/dns/opsec.go:85-102 | an IPv6 address is refused exactly when it is unspecified, loopback, unique local, link local or multicast |
| LocalNames.OddLengthsPass | internal/dns/opsec.go:85-102 | an address that is neither 4 nor 16 bytes long is never refused |
| LocalNames.IsAllowedLocalDomain | internal/dns/opsec.go:105-119 | the loop finds a pattern exactly when some pattern allows the name |
| LocalNames.FilterDNSRebinding | internal/dns/opsec.go:122-145 | true exactly when the name is not an allowed local one and some A or AAAA record has a private or local address |
| LocalTrie.SuffixIsLabelPrefix | internal/dns/opsec.go:105-119 | on names without empty labels the string-suffix test is the prefix test on reversed labels |
| LocalTrie.AllowedIsTrieMatch | internal/dns/opsec.go:105-119 | on well-formed names and patterns the allowed-name test agrees with a trie holding the same patterns |
| RingBuffers.RingBuffer.Push | internal/dns/opsec.go:179-185 | the log grows by the entry, and the ring holds the recent end of the log |
| RingBuffers.RingBuffer.GetRecent | internal/dns/opsec.go:188-210 | the last entries, newest first, as many as asked for, fit and exist, also while the ring is not yet full, wherever the walk does not cross a wrap of the counter or the size divides 2^64; when all entries differ, nowhere else |
| RingSteps.SlotsCongruent | internal/dns/opsec.go:179-185 | in every interleaving each filled slot holds a reserved and stored ticket whose 64-bit counter value is congruent to it |
| RingSteps.HoldsLastExactly | internal/dns/opsec.go:179-185 | for every run, wraps of the counter included: with no push in flight the ring holds exactly the last tickets if and only if no store of one of them is followed by another store into its slot |
| RingSteps.HoldsLastUnwrapped | internal/dns/opsec.go:179-185 | before the counter wraps, or when the size divides 2^64: if and only if no store of a recent ticket is followed by that of an older ticket congruent to it |
| RingSteps.LosingRun | internal/dns/opsec.go:179-185 | for every size, a run that ends with no push in flight and without the newest entry |
| RingSteps.TimelyHoldsLast | internal/dns/opsec.go:179-185 | before the counter wraps, or when the size divides 2^64: if no push is overtaken by a whole round of reservations, at quiescence the ring holds exactly the last tickets |
| RingSteps.QuiescentHoldsLast | internal/dns/opsec.go:179-185 | the same when no store replaces a later ticket's entry |
| RingSteps.HarmfulLastStoreLoses | internal/dns/opsec.go:179-185 | right after a store that replaces a later ticket's entry the ring does not hold exactly the last tickets |
| Forwarders.SettledIsFirst | internal/upstream/forwarder.go:194-210 | trying in order settles on the first response with nothing but failures before it, or on the last error |
| Forwarders.Forwarder.constructor | internal/upstream/forwarder.go:138-148 | lower-case strategy, round robin by default, counter at zero |
| Forwarders.Forwarder.ForwardRoundRobin | internal/upstream/forwarder.go:171-191 | advances the counter, tries resolvers in rotation, none twice, and returns the first response in that order or fails after trying all |
| Forwarders.Forwarder.ForwardFailover | internal/upstream/forwarder.go:194-210 | the first response in the defined order, or a failure with the last error |
| Forwarders.Forwarder.ForwardParallel | internal/upstream/forwarder.go:236-246 | for every order of arrival: a response of some resolver, or, only when none responded, a failure with what some resolver said |
| Forwarders.Forwarder.Forward | internal/upstream/forwarder.go:152-168 | "failover" gives the first response in the defined order, "parallel" that of some resolver, and every other strategy the first in rotation from the advanced counter, which only it advances |
| Forwarders.StrategiesAgree | internal/upstream/forwarder.go:152-247 | for fixed outcomes every strategy gives a response of some resolver exactly when one responds, and an error otherwise |
| Forwarders.FairWindows | internal/upstream/forwarder.go:172-173 | any `n` consecutive calls start at `n` different resolvers exactly when the counter does not wrap strictly inside the window or `n` divides its modulus |
| ParallelForward.Invariant | internal/upstream/forwarder.go:222-244 | in every run running, buffered and received results add up to the number of resolvers |
| ParallelForward.SendNeverBlocks | internal/upstream/forwarder.go:222-232 | no worker ever blocks on its send, not even after an early return |
| ParallelForward.ReceiveNeverStarves | internal/upstream/forwarder.go:236-244 | the receiver never waits with nothing to come |
| ParallelForward.ReturnedIsRight | internal/upstream/forwarder.go:236-246 | what is returned is a response of some resolver, or an error after all have failed |
| ParallelForward.RunsAreShort | internal/upstream/forwarder.go:213-247 | each step uses up work, at most two steps a resolver |
| ParallelForward.StuckIsDone | internal/upstream/forwarder.go:213-247 | when no step is possible all workers have finished and the receiver has returned: no deadlock, no leak |
| Handlers.Handler.HandleBlocked | internal/dns/handler.go:198-249 | logs the query and builds the sinkhole reply for the configured mode, query type and time to live |
| Handlers.Handler.Screen | internal/dns/handler.go:124-148 | refuses exactly when, with uncloaking on, a CNAME leads to a blocked name or, with rebinding protection on, an A or AAAA record has a private or local address under a name that may not have one |
| Handlers.Handler.Ask | internal/dns/handler.go:92-106 | the resolvers are asked the prepared query, and the result is one that the strategy allows |
| Handlers.Handler.ServeDNS | internal/dns/handler.go:68-157 | one request on the heap gives the reply, the cache, the log entry and the counter that the specification gives, and resolvers are asked only about names neither blocked nor cached |
| Replies.RelayedUnchanged | internal/dns/handler.go:85-156 | a forwarded reply is the response of the resolvers with another id and spelling of the name and all else as it was: header, other questions and every record; one from the cache is the stored message of an unexpired entry for the same question, with another id and, OPT excepted, other times |
| Replies.MadeHere | internal/dns/handler.go:69-106 | FORMERR exactly without a question and SERVFAIL only when the resolvers fail, both without records; a sinkhole reply is NXDOMAIN without records, or NOERROR with one zero address of the kind asked for under the name asked, for the configured time or 300 seconds |
| Replies.RefusedExactly | internal/dns/handler.go:124-148 | a response is refused exactly when, with uncloaking on, a CNAME leads to a blocked name or, with rebinding protection on, an A or AAAA record has a private or local address under a name that may not have one |
| Replies.ForwardedExactly | internal/dns/handler.go:124-156 | a response to a name neither blocked nor cached is sunk exactly in these cases and forwarded in all others |
| Pipeline.HitOk | internal/dns/handler.go:86-90 | a hit is a vetted response given for the very question that is asked, because the cache key and the screened name are one normal form |
| Pipeline.StoredOk | internal/dns/handler.go:150-154 | storing a vetted response keeps every entry of the cache a vetted response under its own key |
| Pipeline.AfterKeeps | internal/dns/handler.go:68-157 | every step of a request or a reload keeps the invariant on cache entries, jobs and sent replies |
| Pipeline.RunKeeps | internal/dns/handler.go:68-157 | so does every run, however requests and reloads interleave |
| Pipeline.NoRebinding | internal/dns/handler.go:138-148 | with rebinding protection on, no cached entry and no reply from the cache or a resolver has an A or AAAA record with a private or local address unless its name is an allowed local one |
| Pipeline.RelayedWasGiven | internal/dns/handler.go:99-156 | every reply from the cache or a resolver is what some step delivered from a resolver to a job asking for a request with the same name up to spelling, type and class: forwarded, unchanged in header, questions and records but for the id and the spelling of the first name; from the cache, with other times as well, that of OPT excepted |
| Pipeline.SpellingOfGiven | internal/dns/handler.go:119-122 | a relayed reply spells the name as its client did exactly when the client that the response was given for did |
| Spelling.SpeltByFirst | internal/dns/handler.go:85-122 | for any two spellings a run in which the second client is answered in the first one's |
| Spelling.SpeltInCapitals | internal/dns/handler.go:85-122 | a concrete pair of spellings, for every configuration with the cache on |
| Provenance.HitWasForwarded | internal/dns/handler.go:85-156 | every reply from the cache repeats a response that was forwarded before, vetted between the arrival and the sending of that reply |
| Pipeline.NoCloaking | internal/dns/handler.go:124-136 | with uncloaking on, each alias in such a reply led to a name that some table did not block, one in force after the response was taken and before it was stored or sent |
| Pipeline.SunkHasCause | internal/dns/handler.go:198-249 | a sinkhole reply has the fields that request and configuration prescribe, and always its cause: the table in force blocks the name or an alias in the response given for the request, or that response has an A or AAAA record with an address the name may not have |
| Pipeline.RepliesMatchRequests | internal/dns/handler.go:69-156 | every reply has its request's id and, if it has a question, the name asked up to spelling; made here rather than relayed, it has the very question; without a question it is FORMERR and after a failure of the resolvers SERVFAIL, field by field |
| Progress.RequestsAreConserved | internal/dns/handler.go:68-157 | in every run accepted requests are those in progress and those replied to, each once |
| Progress.AdvanceProgresses | internal/dns/handler.go:68-157 | each advance of a job replies to its request or brings it nearer to that, and touches no other job |
| PipelineCache.CacheIsRun | internal/dns/handler.go:85-154 | in every run, however requests interleave, the cache is that of the lookups and stores read off the steps, in order |
| PipelineCache.HitSendsLastStore | internal/dns/handler.go:86-90 | what a hit sends is the last accepted store under the question's key, retimed and under the asker's id |
| PipelineCache.HitTimes | internal/dns/handler.go:86-90 | with a nondecreasing clock its times lie between 1 and the stored one, are less than a second short of expiry and reach at most a second past it |
| PipelineCache.AnswerSurvives | internal/dns/handler.go:85-154 | an answer once touched stays cached while fewer keys than the limit are touched after it, unless a lookup finds it expired |
| Pipeline.ListedIsSunk | internal/dns/handler.go:79-83 | a name that every table in force between arrival and reply blocks gets the sinkhole reply and no other |
| SequentialRuns.ServeIsRun | internal/dns/handler.go:68-157 | an uninterrupted request does in the step machine what the specification of one request says |
| SequentialRuns.HandlerIsRun | internal/dns/handler.go:68-157 | the same with the filter's own verdict under the table in force |
| HandlerRuns.StartInStep | internal/dns/handler.go:29-60 | a new handler over a new engine and an empty cache stands at the machine's first state |
| HandlerRuns.ServeInStep | internal/dns/handler.go:68-157 | serving on the heap takes the machine along one of its runs, which sends this very reply and logs it by its source; resolvers are asked, by the strategy and with the prepared query, exactly when the request has a question that is neither blocked nor answered from the cache, and it fails exactly when none of them answers; made here, the reply has the fields of the sinkhole or of a failure; relayed, those of what a resolver gave; just forwarded, no alias of a name that the filter now blocks; from the cache, none that the table in force blocked when the same response was forwarded before; relayed either way, no A or AAAA record with a local address under a name that may not have one |
| HandlerRuns.LoadInStep | internal/filter/engine.go:197-325 | loading rules on the heap takes the machine along one reload to the table then in force, or along none with blocking off |
| StaleAliases.StaleAlias | internal/dns/handler.go:85-90 | for any two loaded tables and two names that the older lets through, of which the newer blocks the second only: a run in which a request arriving under the newer table is served the second as an alias |
| StaleAliases.StaleExactly | internal/dns/handler.go:85-136 | with uncloaking and the cache on, such a run exists if and only if such a pair of names does |
| StaleHistories.StaleInHistory | internal/dns/handler.go:85-136 | for any history of tables, with requests in progress while they are loaded: a run that serves such an alias exists if and only if some table in force while serving lets a name through, that or a later one before the last an alias, and the last blocks the alias and not the name |
| StaleAliases.StaleTracker | internal/dns/handler.go:85-90 | two concrete blacklists for which it happens |

## Left out

- Text outside ASCII: Go lower-cases and splits on Unicode; strings here are ASCII.
- Floating point: `Duration.Seconds()` is taken as exact division, and the conversion of a float to `uint32`, which Go leaves to the implementation when it does not fit, as the remainder modulo 2^32.
- Reading lists: files, HTTP and the line scanner with its length limit; a list is a sequence of lines, or absent when it could not be read.
- Regular expressions: which patterns compile and what they match are arbitrary functions.
- DNS wire format: message length is the additive sum of its parts without name compression; A and AAAA data count 4 and 16 bytes.
- Record kinds: a record's type is that of its data; a record whose header type and data disagree is not represented.
- Exchanges with resolvers over UDP, TCP, TLS and HTTPS, their timeouts and cancellation: each resolver's outcome is an input that may depend on the query.
- Resolver construction from configuration strings: the forwarder starts from a positive number of resolvers.
- Mutexes of the cache: each Get and Set is one step, and the clock reading of a Set that is taken before the lock is its time.
- The container/list element and the entry it holds are one object.
- Nil requests and nil messages.
- Logging, measured times, the quality of randomness, and Is0x20Match, whose result is only logged.
- Server, signals, configuration files and StartAutoUpdate; a reload may happen at any step.
- NameRules.BlockedByName: entries and queries of letters, digits, hyphens and underscores without empty labels, and up to two final dots in a query; for other text the flat specification of FilterRules holds. Entries in the style of ad blockers are brought into this form by Normalizing.NormalizeAdorned.
- HostsLines.HostsLine: all words of a line are parted by the same white space, of any length and kind, with none at its ends.
- LocalTrie.AllowedIsTrieMatch: names and patterns of letters, digits, hyphens and underscores without empty labels; elsewhere the two tests differ by design, since the trie skips empty labels.
- Pipeline.NoCloaking: verdicts of different tables may vouch for different aliases of one answer, because each check loads the snapshot anew.
- StaleAliases.StaleExactly: without uncloaking no alias is screened at all, so it and StaleHistories.StaleInHistory speak of uncloaking switched on.
- The blocking configuration of a handler stays as it is while requests are served.
- Forwarders.Forwarder.ForwardParallel: the order of arrival is arbitrary in the method; the channel and the workers are in the step machine of ParallelForward.
- Len of the cache and of the ring buffer, TotalRules: easy members.
