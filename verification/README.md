# Cistern, modelled and proved in Dafny

Cistern is a cache of one or two levels with tag invalidation. This project models its hard parts and
proves what they keep: the tagged read, load and invalidate protocol, the copy of generations each
replica keeps, the flight group, the in-memory store, the envelope, the keys, and the whole cache run
sequentially. `dafny verify dfyconfig.toml` checks everything.

## How it is organised

| file | models |
|---|---|
| `Authority.dfy` | the contract of a `TagStore`'s counters: create, read, bump, lose |
| `GenCopy.dfy` | a replica's copy of the generations: a class over its maps, and histories of puts and drops |
| `TagProtocol.dfy` | the tagged two-level cache as a transition system over any number of replicas, readers, loads and invalidations |
| `TagSafety.dfy` | what every run of it keeps and gives: freshness, bounded staleness, no resurrection, isolation |
| `TagStaleness.dfy` | the staleness bound is the exact one |
| `TagLiveness.dfy` | what the protocol must still do: announce an invalidation to every replica, serve what a level holds, store and hand out what was loaded |
| `Slots.dfy`, `Keys.dfy`, `KeyText.dfy` | slots, physical keys, counter keys, flight keys, event names; keys as UTF-8 text |
| `Singleflight.dfy` | the flight group: a class for the lock sections, a transition system for its callers and loads |
| `SingleflightUse.dfy` | that every caller of the flight group can return, and when a load times out |
| `Lru.dfy`, `LruLaws.dfy`, `MemoryTags.dfy` | the in-memory store as a value, its laws, and its counters as a refinement of the authority's contract |
| `LruUse.dfy`, `MemoryUse.dfy`, `MemoryKept.dfy` | what the in-memory store must still answer: recent items, counters that were answered or bumped, and over whole runs all it has room for |
| `MemoryRuns.dfy` | whole runs of the in-memory store, failed calls included |
| `MemoryStore.dfy` | the in-memory store as the program has it: linked entries through a sentinel, a map, two totals |
| `BigEndian.dfy`, `Envelope.dfy` | the storage format |
| `Float64.dfy`, `Ttl.dfy` | rounding to float64; scaled TTLs and backfills |
| `TwoLevel.dfy` | the cache of one or two levels run sequentially, its events included, as a refinement of a plain map with expiry |
| `Common.dfy` | `Option`, `Result`, slots |

The pattern throughout: what a lock section does is a function on values; the class or method that does
it in place is proved equal to that function; the laws are lemmas about the function. The protocol of
`TagProtocol.dfy` interleaves the same functions one lock section or store call at a time, in the order
of the code. Its `Action`s are: the read of L1, the check against the local copy, the epoch, GetTagged,
the put, the decision, the backfill, leading or joining a flight and receiving its result; the begin and
end of a load, its write to L2 and to L1, and a Set; the bump, drop and publication of an invalidation;
delivery, loss and forgery of events; loss of any entry and any counter; and the clock.

## What is assumed

- A draw of `NewGeneration` keeps a distance of `limit` from every generation any counter of any key
  ever held, and at most `limit` (less than 2^62) bumps ever happen. This stands for "unpredictable".
  Over whole runs of the in-memory store it is stated of the draws alone: any two are more than twice
  `limit` apart (`Far` in `MemoryTags.dfy`).
- One `GetTagged` is one step of the authority. Counters may be lost before and after each look at them.
- SHA-256 gives 32 bytes and tells apart the keys it is used on; a value decodes to what was encoded.
- All replicas read one clock, which never goes back. A store call, and an operation of the sequential
  cache, reads it once (`GetOrLoad` once more when its load has returned).
- `delay` bounds the time from a read's GetTagged to its put and to its decision. It is arbitrary, and
  the freshness, isolation and resurrection results do not depend on it.
- A joining caller may join any call ever made under its flight key on its replica. That covers every
  choice of the flight group, so nothing in the protocol rests on which call the group holds.
- A load's value is as old as the moment the loader began; the value of a Set as old as the moment it
  read its generations.

## Where the code and its documentation differ

- The documents promise that a lost event leaves a replica stale for at most one L1 TTL
  (docs/adr/0004-l1-l2-composition-and-ttl-ordering.md:41-43, docs/adr/0005-tag-invalidation-with-generation-counters.md:77-78,
  docs/adr/0006-best-effort-invalidation-bus.md:32), and gencache.go:17-20 says that the expiry of the
  copied generations is not what carries this. The code gives L1 TTL plus the time between a read's
  GetTagged and its put: `TagStaleness.StalenessExactly` proves that a run can serve from L1 or L2, `late`
  after a bump, a value loaded before it, exactly when `late` is less than the L1 TTL and that delay
  together, and `TagStaleness.DocumentedBoundExactly` that the documented bound holds exactly when the
  delay is zero. `TagStaleness.BoundIsTight` gives, for every L1 TTL and every delay, a run that does so
  one tick before the bound, and in which L1 was given the value in the very instant of the hit: L1's own
  expiry has no part in it, and it is the copy's expiry that makes the bound.
- events.go:37-38 says that an accepted name is one this cache could have stored. Two families of names
  are accepted and are not: of kind `h` with upper-case hexadecimal digits (`Keys.UpperCaseNameAdmitted`),
  and any of kind `h` in a cache without key hashing (`Keys.UnhashedCacheAdmitsDigests`).
  `Keys.AcceptedNamesStoredExactlyWhen` says for every accepted name whether the cache could have stored it:
  exactly when it is of kind `k`, or the cache hashes keys and the digits are lower-case.
- A flight can still be joined between the end of its function and its `forget`
  (internal/singleflight/singleflight.go:108-115), against what "in flight" suggests:
  `Singleflight.FinishedCallCanStillBeJoined`. A Do joins a call exactly when it is one of its key that is
  neither forgotten nor expired (`Singleflight.JoinedExactlyWhenUnretired`), and starts a new one exactly
  when there is none (`Singleflight.StartsExactlyWhenAllRetired`).
- cache.go:495-499 scales a duration by a factor of at most one, in float64. A TTL that float64 rounds up
  is lengthened by it, as 2^53 + 3 ns is (`Ttl.LongTtlRoundedUp`). Scaling never lengthens a TTL exactly
  when its float64 is not above it (`Ttl.ScalingNeverExtendsExactlyWhen`), and so for every TTL up to
  2^53 ns; that L1 never asks for longer than L2 holds for every TTL.

## Model

| member | source | states |
|---|---|---|
| TagSafety.StepKeeps | tags.go:62-152 | every step of every reader, load, Set, invalidation, event and loss keeps the protocol's invariant: entries record generations that were issued before their load began, the local copy is no older than the drops it has seen, waiters wait on a load of their own slot and generations |
| TagSafety.ReachableInv | tags.go:62-152 | the invariant holds after every run from an empty cache with any set of replicas |
| TagSafety.FreshAfterSeen | tags.go:91-152 | a read that starts on a replica that has seen n bumps of a tag invalidated never returns, if its generations were read, a value whose load began before the n-th bump: from L1, L2 or a joined flight, in every interleaving |
| TagSafety.FreshAfterInvalidateTag | tags.go:62-85 | the same for a read that starts after InvalidateTag has bumped and dropped on that replica |
| TagSafety.InvalidationIsSeen | tags.go:73-76 | once InvalidateTag has bumped and dropped, its replica counts its bump as seen |
| TagSafety.DeliveryIsSeen | events.go:81-91 | with two levels, handling a tag event makes the replica see at once the bump its sender made (where L1 is the authority, see TwoLevel.Cache.OnTagEvent) |
| TagSafety.RunGrowsSeen | events.go:81-91 | no run makes a replica forget an invalidation it has seen |
| TagSafety.FreshAfterDelivery | events.go:81-99 | a read that starts at any time after its replica has handled a tag's event never returns, if its generations were read, a value whose load began before the bump the event announced, in every interleaving |
| TagLiveness.FreshAcrossReplicas | tags.go:62-85 | end to end across replicas: after any run in which an invalidation bumps its tag and later publishes, and the bus does not lose that event, every replica can handle the event; and every read that starts there at any time after, and knew its generations, returns only what was loaded after that bump |
| TagLiveness.PublishedIsDeliverable | tags.go:80 | once an invalidation has bumped, its Publish puts the event of that very bump on the bus, and in any run after it, until the bus loses it, every replica can handle it |
| TagLiveness.BumpIsNumbered | tags.go:73 | the bump adds one to what its counter had, and the invalidation announces that number |
| TagLiveness.RunKeepsEvent | bus/bus.go:29-31 | over any run an event stays deliverable, to any number of replicas and any number of times, until it is lost |
| TagLiveness.InvalidationProceeds | tags.go:73-84 | in every state InvalidateTag can run to its end: one bump in the log, the tag gone from the local copy, the event on the bus |
| TagLiveness.FailedBumpProceeds | tags.go:73-84 | a bump that fails stops neither the drop nor the announcement |
| TagLiveness.ServedLocally | tags.go:96-113 | an unexpired L1 entry whose recorded generations the local copy still answers is served without asking the authority, and nothing changes |
| TagLiveness.Asks | tags.go:119-149 | otherwise asking the authority settles the read: the L1 entry if it records the generations fetched, else the L2 entry if unexpired and so recorded, else a miss with these generations; and the local copy then answers them for one L1 TTL |
| TagLiveness.ReadHits | tags.go:91-152 | a read is a hit whenever L1 or L2 holds an unexpired entry recording the generations the authority answers |
| TagLiveness.BackfilledIsServedLocally | tags.go:143-145 | a hit in L2 is copied into L1, and the next read there is served from it without the authority |
| TagLiveness.LoadStores | cache.go:251-286 | after a miss with known generations, the load's value goes to its caller and, recorded with those generations, into L2 and L1, as of the bumps made when it began; nothing else in them changes |
| TagLiveness.UncachedLoad | cache.go:245-286 | when the generations could not be read the value is returned all the same and stored nowhere |
| TagLiveness.JoinerShares | cache.go:252-286 | whoever missed with the generations a load was started with may join it, and is answered what it loaded |
| TagLiveness.SetStores | cache.go:318-325 | Set records the authority's present generations with its value in both levels |
| TagLiveness.StoredIsReadBack | cache.go:415-435 | what was just stored under generations the authority still answers is what a read answers, on the replica that stored it and on every replica whose L1 holds nothing for the slot |
| TagSafety.AnswersCoverFloor | tags.go:135-151 | every answer of a reader that knows its generations was loaded after the bumps seen when the reader started |
| TagSafety.StalenessBound | tags.go:96-134 | with every event lost, a hit decided at or after a bump plus L1 TTL plus the delay between GetTagged and put records a generation issued after that bump and serves a value whose load began after it, however late a slow load wrote L1 |
| TagStaleness.StalenessExactly | tags.go:96-134 | some run serves from L1 or L2, a given time or more after a bump of one of the slot's tags, a value loaded before that bump, exactly when that time is less than the L1 TTL and the delay together |
| TagStaleness.DocumentedBoundExactly | docs/adr/0004-l1-l2-composition-and-ttl-ordering.md:41-43 | the documented bound of one L1 TTL holds over all runs exactly when the delay between GetTagged and put is zero |
| TagStaleness.BoundIsTight | gencache.go:12-20 | for every L1 TTL and delay a run serves an invalidated value one tick before that bound, with L1 written in the instant of the hit: neither the L1 TTL nor L1's own expiry is a bound, the copy's expiry is |
| TagSafety.BornStale | tags.go:140-149 | a generation older than its counter's last bump is no counter's current value |
| TagSafety.NeverResurrected | tagstore.go:15-19 | an entry with a bumped or lost generation is refused by every later check against the authority, across all later bumps, losses, expiries and re-creations of counters |
| TagSafety.OverlappedLoadIsNeverServed | cache.go:251-277 | what a load stored that began before a bump of one of its tags is refused by the authority from the bump on, for ever |
| TagSafety.RunRetires | tagstore.go:34-43 | no generation that went out of use comes back into use in any run |
| TagSafety.AnswersAreOwn | tags.go:107-149 | whatever a reader returns was cached or loaded for its own physical key with its own tags, whether or not its generations could be read |
| TagSafety.OwnersAreIsolated | tags.go:13-42 | end to end, a reader of a key with some tags is never answered what was cached or loaded for another key or another set of tags |
| TagSafety.FlightSharesSlot | cache.go:465-492 | two callers with the same flight key have the same slot and the same generations, or none |
| TagSafety.StoreKeeps | gencache.go:78-96 | a put of generations fetched before a concurrent invalidation never makes the local copy older than the drops it has seen |
| TagSafety.DropKeeps | gencache.go:110-119 | a drop after a bump leaves no generation in the copy that predates the bump |
| TagSafety.CheckLocalKeeps | tags.go:107-111 | an L1 hit served against the local copy alone is as fresh as the copy |
| TagSafety.DecideKeeps | tags.go:135-149 | a hit served after GetTagged, from L1 or L2, records the generations that were current then |
| GenCopy.GenCache.TakeEpoch | gencache.go:48-56 | the snapshot holds the number of clears and each key's number of drops |
| GenCopy.GenCache.Get | gencache.go:60-73 | all generations if every key is present and unexpired, else nothing |
| GenCopy.GenCache.Put | gencache.go:78-96 | the copy becomes the one the put's specification gives: refused, stored, or stored after a clear |
| GenCopy.GenCache.Drop | gencache.go:110-119 | the key goes and its count rises; a full set of counters is reset and counted as a clear |
| GenCopy.GenCache.Clear | gencache.go:124-128 | both maps are emptied and the clear is counted |
| GenCopy.PutThenGet | gencache.go:60-96 | an accepted put is what the next lookup answers until it expires; a refused one changes nothing |
| GenCopy.PutAcceptedExactlyWhenUndisturbed | gencache.go:75-119 | over every history of puts and drops, including resets of the drop counters, a put takes effect exactly when since its epoch none of its keys was dropped and nothing was cleared |
| GenCopy.StepKeepsEpochs | gencache.go:78-119 | one operation decides an earlier epoch: it stays acceptable exactly if the operation neither clears nor drops one of its keys |
| GenCopy.ReplayStaysBounded | gencache.go:89-118 | both maps stay within 10000 under every mix of puts of at most 10000 keys and drops |
| GenCopy.FloodRemovesOnlyItsOwn | gencache.go:103-109 | a flood of drops, however large, removes exactly the generations it names |
| GenCopy.PutAcceptedUnlessDropped | gencache.go:75-96 | over every history that names at most ten thousand keys, a put takes effect exactly when none of its keys was dropped since its epoch |
| GenCopy.SparedStays | gencache.go:78-119 | over every such history what the copy says of a key stays until that key is dropped or put again |
| GenCopy.PutKeepsOthers | gencache.go:89-95 | an accepted put keeps every other key unless it would pass ten thousand, and then none |
| GenCopy.DropKeepsOthers | gencache.go:110-119 | a drop takes out its own key, counts once more and leaves other keys and counts alone |
| GenCopy.DropForgetsCounts | gencache.go:113-117 | only the drop of a new key beside ten thousand others forgets the counts, and is then counted as a clear |
| GenCopy.LookupAnswersExactly | gencache.go:60-73 | a lookup answers exactly when every key is there and unexpired, and then what is there |
| Authority.NewGeneration | tagstore.go:37-43 | a generation is in [1, 2^62) |
| Authority.ReadFacts | tagstore.go:23-27 | GetTagged answers one current generation for each counter, in order, and retires none |
| Authority.BumpedFacts | tagstore.go:29-31 | a bump retires every generation its counter had and touches no other counter's log |
| Authority.NextIsNew | tagstore.go:29-31 | a bump moves a counter to a value no counter ever held, below 2^64 |
| Authority.AdvancedValid | tagstore.go:15-19 | a bump keeps the runs of different draws apart |
| Authority.HeldValid | tagstore.go:15-19 | creating a missing counter with a fresh draw keeps the runs of different draws apart |
| Authority.GensNameTheirCounters | tagstore.go:34-43 | equal generations belong to equal counters, so comparing generations compares tags |
| Authority.ReadOfLive | tagstore.go:23-27 | counters that are held answer what they hold, whatever would be drawn, and the read changes nothing |
| Authority.ReadAgain | tagstore.go:23-27 | what one read answered the next answers, created counters included |
| Authority.BumpMovesOne | tagstore.go:29-31 | a bump moves a held counter on by one, a missing one on from its draw, and no other |
| Authority.EveryGenerationDrawn | tagstore.go:42 | every generation from 1 to 2^62 - 1 is drawn from some bits |
| Slots.SlotFor | tags.go:21-42 | the slot, or the first refusal in the code's order: key, number of tags, tags |
| Slots.SlotExistsExactlyWhen | tags.go:21-42 | a tagged slot exists exactly for a good key with at most eight different tags, all good |
| Slots.SlotContents | tags.go:21-42 | a slot holds the physical key of its key and, in ascending order of the tags, one counter key for each different tag, all different; without tags none |
| Slots.BelowAtFirstDifference | tags.go:29 | tags are ordered by their first difference, a prefix before what it starts |
| Slots.SlotsAgreeExactlyWhen | tags.go:13-19 | two calls share a slot exactly when they have the same key and the same set of tags, whatever the order and repetition |
| Slots.SlotsAreFlightSafe | tags.go:21-42 | every slot of a tagged cache has what the protocol and its flight keys need |
| Slots.SortedSorts | tags.go:29-31 | the sort gives an ascending permutation of the tags |
| Slots.CompactedIncreases | tags.go:29-31 | compaction of sorted tags leaves each tag once, strictly ascending |
| Keys.PhysicalKeyInjective | keys.go:19-32 | one physical key is one key of one namespace |
| Keys.CountersDisjointFromEntries | tags.go:44-54 | no entry of any namespace lives under a counter's key |
| Keys.GenKeyInjective | tags.go:44-54 | one counter key is one tag of one namespace |
| Keys.EventKeyAcceptsPhysicalKeys | events.go:42-55 | every physical key of a cache is accepted as an event name, and a verbatim key is recovered from it |
| Keys.EventKeyReportsOnlyItsOwn | events.go:37-55 | a consumer key reported for an event is one whose physical key is the event's name |
| Keys.AcceptedNamesStoredExactlyWhen | events.go:37-55 | an accepted name is one the cache could have stored exactly when it is of kind k, or the cache hashes long keys and the digits are lower-case |
| Keys.UnhashedCacheAdmitsDigests | events.go:50-53 | a cache without key hashing accepts every hashed name, and stores nothing under any |
| Keys.UpperCaseNameAdmitted | events.go:50-53 | an upper-case name that is accepted though no cache of the namespace stores a key under it |
| Keys.BuildFlightKey | cache.go:475-492 | the builder's loop gives the specified flight key |
| Keys.FlightKeyInjective | cache.go:465-492 | a flight key determines the physical key, whether the generations were known, and the generations or else the tags |
| Keys.BuiltKeysAreFlightSafe | cache.go:479-482 | physical keys and counter keys satisfy what the flight key's separators need |
| Keys.CleanIsPrintable | keys.go:34-50 | a valid key holds no control character, NUL included |
| KeyText.ValidKeyExactlyWhen | keys.go:37-50 | a key or tag is valid exactly when it is the UTF-8 encoding of at least one character, none of them a control character |
| KeyText.PhysicalKeyExactlyWhen | keys.go:18-32 | a key has a physical key exactly when it is such text of at most 256 bytes, or of any length where keys are hashed, and which one |
| KeyText.GenKeyExactlyWhen | tags.go:46-54 | a tag has a counter key exactly when it is such text of at most 256 bytes, and which one |
| KeyText.EventKeyExactlyWhen | events.go:41-54 | a key event is heard exactly when it names a verbatim key of the namespace or 64 hexadecimal digits |
| KeyText.HexSpells | keys.go:30-31 | each byte of a digest is two lower-case hexadecimal digits, the higher first |
| KeyText.DecimalSpells | cache.go:485-491 | a generation is spelled in decimal digits without leading zeros |
| Keys.JoinInjective | cache.go:480-481 | the NUL join of counter keys is unambiguous |
| Keys.DecimalInjective | cache.go:485-491 | decimal generations are unambiguous |
| Singleflight.Group.Join | internal/singleflight/singleflight.go:48-66 | the locked part of Do joins the unexpired call of the key or replaces it with a new one |
| Singleflight.Group.Depart | internal/singleflight/singleflight.go:68-72 | the deferred part of Do is the step of a caller that leaves |
| Singleflight.Group.Drop | internal/singleflight/singleflight.go:119-126 | forget removes the key only while the map holds this call |
| Singleflight.Group.WaitingOn | internal/singleflight/singleflight.go:92-102 | Waiting answers how many callers joined the key's call and have not left |
| Singleflight.Reachable | internal/singleflight/singleflight.go:48-135 | the group's invariant holds after every run |
| Singleflight.OneLiveLoadPerKey | internal/singleflight/singleflight.go:53-64 | at most one unfinished call per key has an unexpired context, and it is the one in the map |
| Singleflight.WaitingCounts | internal/singleflight/singleflight.go:65-72 | in every reachable state a call's waiting count is the number of callers that joined it and have not left, through results, cancellations, timeouts and panics |
| Singleflight.ResultsAreOwn | internal/singleflight/singleflight.go:74-90 | a caller leaves with its own call's outcome, with its own context's end, or with a timeout only if the deadline fired before the function ended |
| Singleflight.RetiredIsNeverJoined | internal/singleflight/singleflight.go:54-58 | nobody ever joins a call that was forgotten or whose context has ended |
| Singleflight.JoinedExactlyWhenUnretired | internal/singleflight/singleflight.go:53-64 | a Do joins a call exactly when it is one of its key, neither forgotten nor expired, finished or not |
| Singleflight.StartsExactlyWhenAllRetired | internal/singleflight/singleflight.go:53-64 | a Do starts a new call exactly when every call of its key is forgotten or expired |
| Singleflight.UnretiredStaysInMap | internal/singleflight/singleflight.go:119-126 | in every run a call stays in the map until it is forgotten or expires |
| Singleflight.LateForgetSparesSuccessor | internal/singleflight/singleflight.go:119-126 | a hung call is replaced after its deadline, and in every run that follows its successor stays in the map until it is itself retired |
| Singleflight.FinishedCallCanStillBeJoined | internal/singleflight/singleflight.go:108-115 | a run in which a caller joins a call whose function has already ended |
| SingleflightUse.DoAlwaysEnters | internal/singleflight/singleflight.go:48-66 | a Do of any key can always start, and its caller then waits on a call of that key; a call it starts is neither finished nor expired |
| SingleflightUse.WaiterGetsOutcome | internal/singleflight/singleflight.go:76-77 | once the function has ended every caller still waiting can return its outcome, and nothing else changes but the count |
| SingleflightUse.WaiterGivesUp | internal/singleflight/singleflight.go:78-79 | a caller whose own context has ended can return at once, and the load goes on undisturbed |
| SingleflightUse.WaiterTimesOut | internal/singleflight/singleflight.go:80-89 | past the deadline a caller can return: the outcome if there is one, else a timeout |
| SingleflightUse.LoadCanEnd | internal/singleflight/singleflight.go:104-126 | a load that has not ended can end at any time: its outcome is there, its key is free unless another call took it, no other call and no caller is touched |
| SingleflightUse.TimesOutOnTime | internal/singleflight/singleflight.go:60 | over every run, a call started with a timeout does not expire by it, nor anybody return a timeout from it, before the two together; and from then on it can |
| SingleflightUse.NobodyHangs | internal/singleflight/singleflight.go:80-89 | however long the function hangs, from the deadline on every caller waiting on it can return a timeout |
| Lru.TrimmedIsLongest | memory/memory.go:238-240 | eviction keeps the longest recency prefix that fits both limits |
| Lru.SetLeaves | memory/memory.go:231-245 | a Set leaves the new item and behind it the longest prefix that fits with it; an oversized item only removes what its key held |
| Lru.GetValid | memory/memory.go:195-207 | a get keeps distinct keys and both limits |
| Lru.SetValid | memory/memory.go:231-245 | a set keeps distinct keys and both limits |
| Lru.DeleteValid | memory/memory.go:248-259 | a delete removes the key and keeps both limits |
| LruUse.GetHits | memory/memory.go:200-206 | a get of an unexpired item answers its value and puts it in front of the others, which keep their order |
| LruUse.GetExpires | memory/memory.go:200-203 | a get of an expired item takes out that item alone and reports it once |
| LruUse.GetMisses | memory/memory.go:196-199 | a get of a missing key changes nothing |
| LruUse.DeleteTakesOut | memory/memory.go:255-257 | a delete takes out what its key holds and nothing else |
| LruUse.GetAfterSet | memory/memory.go:195-245 | what was just set is answered until it expires, if key and value together fit the byte limit |
| LruUse.SetReportsEvictions | memory/memory.go:238-240 | a set reports one eviction for each other item it takes out, after what was already queued |
| LruUse.BytesAreLengths | memory/memory.go:96 | what the byte limit limits is the lengths of all keys and all values |
| LruUse.RecentIsAnswered | memory/memory.go:195-245 | over every sequence of calls, with the byte limit not binding, an item just set or answered is still answered until it expires while fewer other keys were set or hit than the store has entries |
| LruLaws.CapacityMonotonicity | memory/memory.go:195-259 | with the byte limit not binding, a store with more entries answers every hit of a smaller one with the same value, over every sequence of calls, and the smaller recency list stays a subsequence of the larger |
| LruLaws.SetMirrors | memory/memory.go:231-245 | a set keeps the smaller store's recency list a subsequence of the larger's |
| LruLaws.GetMirrors | memory/memory.go:195-207 | a get does, and a hit of the smaller store is a hit of the larger |
| LruLaws.DeleteMirrors | memory/memory.go:248-259 | a delete does |
| MemoryStore.Store.Unlink | memory/memory.go:295-298 | four pointer writes take one node out of the circle |
| MemoryStore.Store.PushFront | memory/memory.go:300-304 | four pointer writes put one node behind the sentinel |
| MemoryStore.Store.Remove | memory/memory.go:288-293 | list, map, count and size lose the entry together |
| MemoryStore.Store.Evict | memory/memory.go:262-267 | the entry goes and its report is queued |
| MemoryStore.Store.MakeRoom | memory/memory.go:238-240 | the eviction loop ends, never takes the sentinel, and leaves the longest prefix that fits |
| MemoryStore.Store.GetLocked | memory/memory.go:195-207 | the value and the new recency order, or the eviction of an expired entry |
| MemoryStore.Store.SetLocked | memory/memory.go:231-245 | the store after a set is the specified one |
| MemoryStore.Store.CounterLocked | memory/memory.go:182-192 | the live counter, or one created with the draw and stored for the TTL |
| MemoryStore.Store.Get | memory/memory.go:123-132 | the representation invariant holds again and the store is the specified one |
| MemoryStore.Store.Set | memory/memory.go:213-227 | the same, and a TTL that is not positive changes nothing |
| MemoryStore.Store.Delete | memory/memory.go:248-259 | the same |
| MemoryStore.Store.GetTagged | memory/memory.go:138-156 | the same, for a value and its counters, and with the failures of the draw |
| MemoryStore.Store.Bump | memory/memory.go:160-178 | the same, for a loop over counters that stops at the first failed draw |
| MemoryStore.Store.TakeReports | memory/memory.go:271-278 | each queued report is taken once |
| MemoryTags.GetTaggedKeepsContract | memory/memory.go:138-156 | GetTagged over the LRU is a read of the authority's contract, though creating one counter may evict another it has just answered; when it fails, it is a read of the counters it got through |
| MemoryTags.AdvanceKeepsContract | memory/memory.go:170-176 | one successful round of Bump over the LRU is a bump of the contract, whatever it evicts |
| MemoryTags.AdvancesKeepContract | memory/memory.go:170-176 | the loop of Bump is the bumps of the contract over all counters, or over those before the first draw that failed |
| MemoryTags.BumpKeepsContract | memory/memory.go:160-178 | the same for a whole Bump, also when it refuses its TTL |
| MemoryTags.CountersKeepContract | memory/memory.go:149-154 | the counter loop is a read of the contract over all counters, each generation held during the step, or over those before the first draw that failed |
| MemoryTags.EntriesKeepContract | memory/memory.go:195-259 | reading, writing and deleting entries, and time, leave each counter or lose it |
| MemoryRuns.CallKeepsContract | memory/memory.go:123-259 | each call, successful or failed, is a step the contract allows; a GetTagged that succeeds answers current generations, a Bump that succeeds has bumped every counter it names |
| MemoryRuns.RunKeepsContract | memory/memory.go:123-259 | over every sequence of calls the store's counters are those of an authority that evolved as the contract allows |
| MemoryRuns.StoreKeepsContract | memory/memory.go:100-259 | the same for every run from an empty store |
| MemoryRuns.BumpedGenerationNeverAnswered | tagstore.go:15-31 | a generation answered before a Bump of its counter is never answered after it, whatever is called, evicted, expired and created anew in between |
| MemoryRuns.RunKeepsEntries | memory/memory.go:123-259 | over every sequence of calls what is under an entry's key is what was last set there and not deleted, or nothing |
| MemoryRuns.AnswersAreLastSet | memory/memory.go:123-132 | over every sequence of calls a Get answers the value last set under its key, unexpired and not deleted, or nothing |
| MemoryUse.GetTaggedAgain | memory/memory.go:138-156 | counters answered once are answered again until they expire, whatever would be drawn: one counter whatever is evicted for it, several when they fit |
| MemoryUse.GetTaggedOfHeld | memory/memory.go:148-155 | a GetTagged of counters that are held answers them and what Get answers for the entry |
| MemoryUse.GetTaggedAfterBump | memory/memory.go:160-192 | within its TTL after a Bump, GetTagged answers the former generation plus one, or what was drawn plus one |
| MemoryUse.GetTaggedSucceeds | memory/memory.go:142-144 | with draws that succeed, GetTagged fails exactly for a TTL that is not positive, and then changes nothing |
| MemoryUse.BumpSucceeds | memory/memory.go:164-166 | the same of Bump |
| MemoryKept.ItemStays | memory/memory.go:123-259 | over every sequence of calls there is room for, what a key holds stays until it expires or a call sets, deletes or bumps that very key |
| MemoryKept.SetIsAnswered | memory/memory.go:123-259 | so a value that was set is answered after any such calls |
| MemoryKept.CounterIsAnsweredAgain | memory/memory.go:138-192 | and a counter that was stored is answered after any such calls, whatever else they create |
| Envelope.Encode | internal/envelope/envelope.go:44-65 | the bytes of the layout, or the reason for refusing |
| Envelope.Decode | internal/envelope/envelope.go:69-115 | the entry or the first refusal, with no index out of range on any input |
| Envelope.DecodeOfEncode | internal/envelope/envelope.go:42-115 | what is encoded is decoded to itself within the payload limit |
| Envelope.EncodeOfDecode | internal/envelope/envelope.go:67-115 | accepted bytes are what their entry encodes to |
| Envelope.AcceptsExactlyTheEncodable | internal/envelope/envelope.go:67-69 | exactly the images of Encode within the limit are accepted, and no bytes mean two entries |
| Envelope.EncodesExactlyWhen | internal/envelope/envelope.go:44-50 | an entry is encoded exactly with a positive expiry, a codec id of 1 to 32 bytes, at most eight generations, and a payload exactly when it is no absence |
| Envelope.LayoutByteByByte | internal/envelope/envelope.go:51-64 | the bytes at every offset: version 2, flag, expiry and generations most significant byte first, lengths, codec id, payload |
| Ttl.WriteOrdersTtls | cache.go:415-435 | in float64, for every TTL, override and jitter draw, 1 <= L1 TTL <= L2 TTL; and each stays within what was configured if float64 does not round that up |
| Ttl.ScaledMonotone | cache.go:495-499 | a longer duration is never scaled to a shorter one, for every duration and factor |
| Ttl.ScalingNeverExtendsExactlyWhen | cache.go:495-499 | scaling lengthens a TTL under no jitter draw exactly when its float64 is not above it |
| Ttl.UsualTtlsNotRoundedUp | cache.go:495-499 | no TTL up to 2^53 ns is rounded up |
| Ttl.LongTtlRoundedUp | cache.go:495-499 | 2^53 + 3 ns without jitter is scaled to 2^53 + 4 ns |
| Float64.RoundMonotone | cache.go:495-499 | conversion to float64 keeps order |
| Float64.RoundOfInteger | cache.go:495-499 | the float64 of an integer is an integer, and up to 2^53 the same one |
| Ttl.BackfillsNeverExtend | cache.go:403-413 | after any chain of backfills no L1 copy outlives its entry's expiry, nor its write plus a TTL that is not rounded up |
| Ttl.WriteKeepsTheRest | cache.go:418-420 | for every TTL up to 2^53 ns and every override and draw, both levels are asked for their TTL times one minus jitter times draw, to within three nanoseconds, and for all of it when nothing is drawn |
| Ttl.ScaledAtLeast | cache.go:495-499 | whatever is drawn, no more than the whole jitter and three nanoseconds are taken from a TTL |
| Ttl.BackfillTakesTheSmaller | cache.go:406-410 | a backfill writes exactly while the entry has something left, for the smaller of that and the L1 TTL |
| Float64.RoundErrorBelow53 | cache.go:495-499 | up to 2^53 a conversion to float64 errs by at most one half |
| Float64.RoundErrorBelow1 | cache.go:419 | up to one it errs by at most 2^-54 |
| TwoLevel.Cache.constructor | cache.go:105-132 | an empty cache configured as asked, with an empty local copy of generations exactly when it is tagged and has two levels |
| TwoLevel.Cache.Get | cache.go:209-219 | a hit is what a plain map with expiry holds after the same calls, whatever was lost, and in time; while no counter was lost (and always without tags), what that map holds and any level still has is a hit, and nothing else is; what the local copy vouches for is a hit that leaves the authority alone; L1 changes only by the copy of an L2 hit; and while the deciding level lost nothing, hits and misses are exactly the plain map's |
| TwoLevel.Cache.Read | cache.go:355-361 | the same for a read that goes on to load: a miss hands on the generations just read, current and, with nothing lost, held |
| TwoLevel.Cache.GetOrLoad | cache.go:231-287 | what it answers without loading is what the plain map holds and a level still has; while no counter was lost it loads exactly when there is no such; a load's outcome is answered, and a value that fits and is not empty, or an absence if absences are remembered, is put in both levels and the plain map for its TTL less the jitter, with the generations read before the load, and nothing else is |
| TwoLevel.Cache.Set | cache.go:296-325 | the errors are exactly those of the code in its order and change nothing; otherwise both levels and the plain map hold the value, with the generations just read, for its TTL less what the jitter drew, and are otherwise as before; the local copy of generations is not touched |
| TwoLevel.Cache.Delete | cache.go:330-351 | the key is gone from both levels and from the plain map, and nothing else is |
| TwoLevel.Cache.InvalidateTag | tags.go:62-85 | exactly the entries that carry the tag vanish from the plain map, the counter is bumped and the local copy drops it; without tags it is an error and changes nothing |
| TwoLevel.Cache.OnEvent | events.go:61-102 | for every event the exact effect on L1, the local copy, the counters and the plain map: one of another namespace none, a key's removes it from L1, a tag's drops it from the local copy or bumps it where L1 is the authority |
| TwoLevel.Cache.OnKeyEvent | events.go:68-80 | L1 lets go of an accepted name, and nothing else changes |
| TwoLevel.Cache.OnTagEvent | events.go:81-100 | with a local copy the generation is dropped; where L1 is the authority its counter is bumped; otherwise nothing |
| TwoLevel.Cache.ReadTagged | tags.go:91-152 | what the local copy vouches for is served and nothing changes; otherwise the authority is read, the copy refreshed, and the read is a hit exactly when either level still has the entry and it records the generations fetched, L1 being given what only L2 had; while no counter was lost that is exactly what the plain map holds and a level has |
| TwoLevel.Cache.ReadPlain | cache.go:367-401 | a hit exactly when L1 or L2 still has the entry, and then what the plain map holds; L1 is given what only L2 had |
| TwoLevel.Cache.Checked | tags.go:157-170 | a decoded, unexpired entry of this codec, or nothing |
| TwoLevel.Cache.Backfill | cache.go:405-413 | L1 gets L2's bytes for the smaller of the L1 TTL and what the entry has left |
| TwoLevel.Cache.Write | cache.go:418-435 | each configured level gets the entry until its record's time and is otherwise as before, or nothing changes when it cannot be encoded; the record lasts the TTL less what the jitter drew, L1's the smaller of the two |
| TwoLevel.WritesARecord | cache.go:418-433 | whatever is drawn, a TTL up to 2^53 ns lasts at least its share without the jitter less three nanoseconds, in L2 and, for the smaller of the TTLs, in L1; without jitter exactly; and never longer unless float64 rounds it up |
| TwoLevel.Cache.Lose | memory/memory.go:261-267 | losing any entries and counters keeps the invariant and leaves the plain map alone; losing L1 entries beside an L2 keeps misses exact, and losing entries keeps what any level still has a hit |
| TwoLevel.HitIsPlain | tags.go:135-149 | an entry whose generations equal the current ones of a slot is what the plain map holds for that slot |
| TwoLevel.PlainIsCounted | tags.go:140-149 | when no counter was lost, what the plain map answers was written with the very generations the authority answers |
| TwoLevel.CompleteAnswers | cache.go:428-433 | when the deciding level lost nothing, the plain map's answers are exactly those the level still has |
| TwoLevel.BumpInvalidates | tags.go:56-59 | a bump retires exactly the entries that carry its tag |
| TwoLevel.InvalidateThenGet | tags.go:56-59 | in the plain map an invalidation hides exactly the slots that carry the tag |
| TwoLevel.Cache.ExpiresInTime | cache.go:418-422 | after every sequence of calls, what the plain map holds ends no later than its write plus a TTL that float64 does not round up |

## Left out

- `redisstore`: its behaviour is that of Redis and its client. `TagStore` is taken as a contract, and the in-memory store is proved to keep it.
- The bus wire format and its encoding; a bus is a set of events that may be delivered, lost, repeated or forged.
- Hooks, their panics, error texts and error wrapping; only kinds of errors are kept.
- Option parsing, `validate` and `NoCache`; their results are preconditions (0 < L1 TTL <= TTL, 0 <= jitter < 1, positive limits, a codec id of 1 to 32 bytes, at least one level).
- Go contexts, apart from "this caller's context has ended" and "this load's context has expired"; scheduling. That a step can be taken is proved where it matters (`TagLiveness`, `SingleflightUse`); that a fair scheduler takes it is not modelled.
- Store errors: the protocol lets a read of L1, a GetTagged, a write or a bump fail; the sequential cache has stores that answer.
- Failed loads in the protocol: they deliver no answer and store nothing. Remembered absences are entries like any other there.
- Concurrency of a cache whose authority is its own L1 (events.go:92-98): it is covered by the sequential cache and its events.
- Key events in the protocol: there they are losses of L1 entries. The sequential cache has them.
- Concurrent guarantees of `Delete` and `Set` without tags, which the code does not give.
- Replicas with different clocks, and a clock that goes back.
- Conversion to int64 of a scaled TTL whose float64 is 2^63, which Go leaves to the implementation, and a fused multiply-add of the jitter.
- int64 overflow of the store's byte total, and counters that are bumped beyond 2^64, which the bound on bumps excludes.
- Aliasing of byte slices: values are immutable here, so the copies the store makes have nothing to show.
- The physical expiry of entries in the protocol: an L1 or L2 entry may be lost at any moment and need never be, which allows more runs than the code has.
- `TwoLevel.Cache.Set`: the clock plus the entry's TTL is taken to be below 2^63 ns, beyond which the code's UnixNano is undefined; the same holds for `GetOrLoad`.
