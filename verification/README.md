# any-sync in Dafny

A Dafny model of the parts of any-sync whose correctness is hardest to see from the code, with proofs
of what they promise. `dafny verify dfyconfig.toml` checks the whole project.

**Range-hash reconciliation** (`app/ldiff`). A container of (id, head) elements keeps a tree of 64-bit
hash ranges. `Container.Diff` is the mutable container: the range map, the dirty set and the element
list are fields its methods reassign. Its invariant says that the reachable ranges form a tree of
buckets, that counts never undercount and leaf counts are exact, and that every reachable hash is the
hash of what is really in its range. `Reconcile` is Diff and CompareDiff against a remote container.
The main results:

- `Container.Diff.Reconcile` ends within floor(64/k) + 2 rounds for divide factor 2^k. Whatever the
  local map tracks, it reports every id rightly and once, except *hidden* ids, about which it is
  silent. An id is hidden exactly when, below buckets the comparison splits, its bucket is left over
  locally with the remote's hash or with a count of zero like the remote's, or is untracked locally and
  without a hash remotely (`HiddenIffCoveredUp`). When every tracked local range is truthful, only
  local-only ids can be hidden, and exactly those whose bucket is untracked locally and empty remotely.
  `Staleness.MissedRemoval` fills two containers once each, after which Diff does not report that the
  remote lacks an id. A Diff is cancelled exactly when queries remain after the rounds its deadline allows.
- A local range that is tracked but no longer reachable need not be truthful, because removeElement
  merges one level only. `Staleness.MissedNewId` is a sequence of five calls on a new container after
  which Diff does not report an id the remote has and the local side lacks. Set never creates such
  ranges; RemoveId creates one exactly when the parent it merges has a divided child.
- Set must never divide a range narrower than the factor. Only the ranges of the last level, 2^(64 mod k)
  wide, are. With distinct ids that do not collide no batch does so when the threshold is at least twice
  that width (`DistinctBatchFits`), and below that bound some batch that sets ids again on some filled
  container does (`NarrowIsDivided`; `AlwaysFitsIff` joins the two). A threshold of the factor less one is enough exactly when 64 mod k
  is not k - 1 (`FactorLessOneIff`), so not for factors 2 and 32; production uses 32 with 256. The values
  that the comment on New calls normal include pairs below the bound, such as 32 with 8.
- Equal hashes mean equal elements for any two valid containers. Equal elements mean equal hashes for
  containers filled with new ids only, where the tree is determined by the elements.
- genTupleRanges partitions every range at least as wide as the factor, wraparound included, and
  getBottomRange finds the piece of every hash exactly when the factor divides the width. The factor
  divides 2^64 exactly when it is a power of two.

**Object cache** (`app/ocache`). `ObjectCache` is a transition system: a step is one critical section
of `c.mu` or `e.mx`, one call into a load function or object, or one channel operation, and any number
of threads interleave. `ObjectCacheProof` proves one inductive invariant for all 28 kinds of step,
`ObjectCacheSteps` what a step does to program points and entries, and `ObjectCacheTheorems` draws the promises.
`ObjectCacheCalls` follows every call from its start to its end, and `ObjectCacheOutcomes` says what callers can
rely on in every run. A Get or Pick ends with the value or the load error of the entry it found, and every error
has its cause. A Get starts over exactly when it met a killed load, is alive itself and has done so less than three
times. A Remove or RemoveSame with a target that reports false was obstructed: its deadline passed, the load
failed, or another thread finalized the entry meanwhile. Otherwise the entry has left the map and its object has
been closed once.
Close is modelled more finely than its comments argue: between publishing a value
(`app/ocache/ocache.go:378-380`) and closing the load channel (`app/ocache/ocache.go:344`) Close's pass,
with its deadline spent, can give up on an entry whose value nobody else will close. `CloseMayLeak` is such a run. `LeakIffGivenUp` says that an object of a
closed, quiet cache is unclosed exactly when the run gave up on its entry there and nobody acquired the
entry afterwards, and `NoLeak` that nothing leaks when the pass never gives up inside that window.
`ObjectCacheProgress` bounds every run in which no new call starts by a budget computed from its first
state, and ends all calls from every reachable state without any deadline.

The steps and the code they stand for: DoStartGet, DoLockForGet `app/ocache/ocache.go:185-200`;
DoCheckClosing, DoWakeGet, DoTimeoutGet `app/ocache/entry.go:81-122`; DoLoadReturns, DoLoadCommit,
DoDiscardValue, DoReleaseLoad `app/ocache/ocache.go:331-381`; DoGetLoaded `app/ocache/ocache.go:216-235`;
DoStartPick, DoPickLoaded, DoTimeoutPick `app/ocache/ocache.go:239-253`; DoStartRemove, DoStartRemoveSame
`app/ocache/ocache.go:383-397,429-449`; DoRemoveLoaded, DoTimeoutRemove, DoAcquireClosing, DoWakeRemove,
DoCallClose, DoCloseAndDelete `app/ocache/ocache.go:403-427` with `app/ocache/entry.go:131-193`;
DoStartTryRemove, DoTryAcquireClosing, DoCallTryClose, DoDecline `app/ocache/ocache.go:470-536`; DoAdd
`app/ocache/ocache.go:550-568`; DoStartGC `app/ocache/ocache.go:607-633`; DoStartClose
`app/ocache/ocache.go:641-677`.

**Pub/sub** (`commonspace/pubsub`). Topics and patterns, the refcounted wildcard trie against a multiset
of patterns, the serving-side interest engine as a class whose refcounts, per-stream totals, caps and
routing tags agree after every message, stream close, eviction and space close, the duplicate ring over
any run of calls, the signed encoding byte by byte, and the one-hop relay rule, with its bound on what is sent
and, when nothing is lost, the promise that every subscriber of every responsible node is. An unsubscribe and a fanout are two
steps each, as the code releases its lock inside them: `Withdraw` and `Untag`, `MatchTopic` and
`Broadcast`, with anything in between. Two observations: a subscribe message without topics that arrives
after its stream is gone leaves an empty stream record behind (`HandleSubscribe` states exactly when), and
a stream whose unsubscribe is between its two steps may still be sent a message (`Fanout` states exactly
when).

**Lifecycle and deletion.** `Lifecycle.App` is Start and Close over any component list and failure point.
`Deletion` and `HeadPipeline` are the deletion state and its race with head updates. An id whose deletion
by the deletion state has been drained never returns to the diff. Updates are drained in the order they were
handed over, none is lost, and the diff shows of each id what the last update that counted said. In any state an id outside the diff stays
out in every continuation exactly when the deletion state holds it, or it is deleted in storage and no
update of it from before that is still on its way (`OutIffSafe`). As long as the deleter drops only trees of
ids the deletion state holds, every drained deletion is final (`DrainedDeletionIsFinal`). It also drops trees
of children bound to a deleted object before the deletion state knows them
(`commonspace/deletionmanager/deleter.go:66-100`); `BoundChildReturns` is a run in which such a child, created
again under its deleted parent, comes back to the diff.

## Model

| member | source | states |
|---|---|---|
| `Geometry.PerRangeAlign` | app/ldiff/hashrange.go:188-193 | perRange and align, computed from to - from, are the quotient and remainder of the width, also for the top range whose width does not fit a word |
| `Geometry.GenTupleRanges` | app/ldiff/hashrange.go:187-203 | the loop with its running lower end yields the df pieces of the range |
| `Geometry.TuplesPartition` | app/ldiff/hashrange.go:187-203 | for every range at least df wide the pieces cover it, nothing else, without overlap and contiguously, wraparound included |
| `Geometry.GetBottomTuple` | app/ldiff/hashrange.go:130-143 | the key getBottomRange looks up, in wrapping arithmetic |
| `Geometry.BottomAgreesIff` | app/ldiff/hashrange.go:130-143 | getBottomRange yields the piece that holds the hash, for every hash of the range, if and only if df divides the width |
| `Geometry.BottomIsPiece` | app/ldiff/hashrange.go:130-143 | when df divides the width the looked-up tuple is the piece that contains the hash |
| `Geometry.BottomMissesPiece` | app/ldiff/hashrange.go:130-143 | otherwise some hash of the range is sent to a tuple that is no piece holding it |
| `Buckets.TopDivisibleIff` | app/ldiff/hashrange.go:33-50 | df divides the top width 2^64 exactly when it is a power of two |
| `Elements.BeforeIsTotalOrder` | app/ldiff/diff.go:135-151 | Compare is a strict total order on ids: by hash, and for equal hashes by the first difference of the ids |
| `Elements.StringLessIff` | app/ldiff/diff.go:420-455 | the order of heads and ids is the order at the first difference, a proper prefix coming first |
| `Elements.UpsertMeaning` | app/ldiff/diff.go:163-173 | remove and set keep the container ordered, hold the new element and all elements of other ids |
| `Tree.HashIsContent` | app/ldiff/hashrange.go:97-124 | when nothing is dirty every reachable hash was computed from exactly the elements in its range, however the tree below is divided |
| `Tree.EqualHashEqualElements` | app/ldiff/diff.go:355-359 | equal hashes of a range on two containers, divided differently or not, mean equal elements there |
| `Canonical.EqualElementsEqualHash` | app/ldiff/hashrange.go:56-73 | containers filled with new ids only have equal trees and hashes when they hold equal elements |
| `Canonical.DividedIff` | app/ldiff/hashrange.go:64-67 | in such a container a range is divided exactly when it is the top or holds more than the threshold |
| `Container.Diff.constructor` | app/ldiff/diff.go:68-84 | a new container is valid, empty and tracks only reachable ranges; small factors and thresholds are raised |
| `Container.Diff.CalcElementsHash` | app/ldiff/hashrange.go:205-223 | hash and number of the elements of a range, no hash for an empty one |
| `Container.Diff.CalcDividedHash` | app/ldiff/hashrange.go:174-185 | hash over the children's hashes in order, empty children contributing nothing |
| `Container.Diff.MakeBottomRanges` | app/ldiff/hashrange.go:145-172 | exactly the nodes and dirty marks that recursive division of a range adds |
| `Container.Diff.AddElement` | app/ldiff/hashrange.go:56-73 | the new tree exactly; keeps it in shape with every stale hash under a dirty mark, unreachable ranges untouched and exact counts exact |
| `Container.Diff.RemoveElement` | app/ldiff/hashrange.go:75-95 | keeps the same; the new tree exactly, with the one-level merge; tightness survives iff no divided child is merged away |
| `Container.Diff.RecalculateHashes` | app/ldiff/hashrange.go:97-124 | terminates, leaves nothing dirty and every reachable hash exact, and changes nothing but hashes and leaf counts |
| `Container.Diff.Set` | app/ldiff/diff.go:163-174 | the container becomes the upsert of the batch, the invariant holds, tracked ranges stay reachable ones, unreachable ones stay untouched, and new ids keep the tree determined by its elements |
| `Container.Diff.RemoveId` | app/ldiff/diff.go:232-245 | removes exactly the id or reports it missing, keeps the invariant, and creates unreachable tracked ranges iff the merged parent has a divided child |
| `Batches.UpsertAllMeaning` | app/ldiff/diff.go:163-174 | after a batch the container holds the last element of the batch with each id it mentions, and the old elements of all other ids |
| `Fitting.RoomFits` | app/ldiff/diff.go:163-174 | a batch divides no range narrower than the factor when every such range has room for what it holds and its mentions in the batch |
| `Fitting.NarrowLeafOverflows` | app/ldiff/hashrange.go:56-73 | a batch inside one narrow leaf does divide it once the leaf's count and the mentions exceed the threshold |
| `Fitting.NarrowIsLast` | app/ldiff/hashrange.go:187-203 | the ranges narrower than the factor are exactly those of level floor(64/k) |
| `Fitting.DistinctBatchFits` | app/ldiff/diff.go:163-174 | with a threshold of at least twice the last level's width no batch of distinct ids, updates included, divides a narrow range, if ids do not collide |
| `Fitting.NewBatchFits` | app/ldiff/diff.go:163-174 | for batches of new ids a threshold of that width is enough |
| `Narrow.NarrowIsDivided` | app/ldiff/diff.go:163-174 | for every factor 2^k and smaller threshold: a container filled with distinct ids and a batch of ids it holds that divides a narrow range |
| `Narrow.CrowdExists` | app/ldiff/diff.go:163-174 | ids that hash as that container needs them exist for every such factor and threshold |
| `Narrow.AlwaysFitsIff` | app/ldiff/diff.go:163-174 | for every factor 2^k and threshold: all batches of distinct ids fit all containers under all hash functions, without collisions, exactly when the threshold is at least twice the last width |
| `Fitting.FactorLessOneIff` | app/ldiff/diff.go:50-66 | a threshold of factor - 1 meets the bound exactly when 64 mod k is not k - 1 |
| `Container.Diff.GetRange` | app/ldiff/diff.go:247-266 | a tracked range answers hash and count, an untracked one or one asked for its elements answers the elements |
| `Container.Diff.CompareResults` | app/ldiff/diff.go:355-381 | skip, compare, fetch or split, with the lists and next queries each adds |
| `Container.CompareElementsEqual` | app/ldiff/diff.go:383-418 | the two loops add exactly the removed, changed and new ids of the two element lists |
| `Container.CompareElementsGreater` | app/ldiff/diff.go:420-455 | the same, where a change counts as ours or theirs as our head comes before or after the remote one at their first difference |
| `Protocol.ComparedRight` | app/ldiff/diff.go:383-455 | what a comparison adds about an id is exactly its situation in the two lists |
| `Container.Diff.Reconcile` | app/ldiff/diff.go:291-353 | bounded rounds, cancelled exactly when queries remain after the rounds the deadline allows; every id that is not hidden reported rightly and once, hidden ids not at all; exact lists when the local side is truthful |
| `Rounds.RemoteNeverHidden` | app/ldiff/diff.go:355-381 | against a truthful container no remote-only or differing id is hidden |
| `Rounds.HiddenRemovalIffOmitted` | app/ldiff/diff.go:355-381 | a local-only id is hidden exactly when its bucket is untracked locally and an empty leaf remotely below buckets counted above the threshold remotely |
| `Rounds.HiddenIffCoveredUp` | app/ldiff/diff.go:355-381 | whatever the local side tracks, an id with an element on one side only is hidden exactly when a left-over or untracked bucket below split ones covers it up |
| `Protocol.TightIsTruthful` | app/ldiff/diff.go:247-266 | a container that tracks only reachable ranges answers every query for what is really there |
| `Rounds.EqualTopsAreExact` | commonspace/headsync/remotediff.go:75-96 | equal top hashes mean equal containers, so the early exit hides nothing |
| `Container.Diff.TryDiff` | commonspace/headsync/diffmanager.go:90-104 | the early exit and the full exchange give the right lists up to hidden ids, the exact ones for a truthful container, and empty ones when the top hashes agree |
| `Staleness.MissedNewId` | app/ldiff/hashrange.go:82-91 | five calls on a new container after which Diff misses an id that only the remote has |
| `Staleness.MissedRemoval` | app/ldiff/diff.go:355-359 | two containers, each filled once, whose Diff misses that the remote lacks an id, though the local side is truthful |
| `ObjectCacheProof.StepKeeps` | app/ocache/ocache.go:180-677 | every step of every thread keeps the cache invariant |
| `ObjectCacheProof.RunKeeps` | app/ocache/ocache.go:180-677 | the invariant holds after every run, in any interleaving |
| `ObjectCacheProof.LoadCommitKeeps` | app/ocache/ocache.go:331-381 | a load that ends with a value, an error, nothing or a panic, before or after Close, keeps the invariant |
| `ObjectCacheProof.DeclineKeeps` | app/ocache/ocache.go:500-536 | a declined TryClose restores the entry, or closes the value when the cache is closed, and keeps the invariant |
| `ObjectCacheProof.AcquireClosingKeeps` | app/ocache/entry.go:131-175 | waiting, refusing or acquiring the closing transition keeps the invariant |
| `ObjectCacheProof.StartCloseKeeps` | app/ocache/ocache.go:641-654 | setting the closed flag with a snapshot of the map leaves every active entry to the pass |
| `ObjectCacheTheorems.OneObjectPerId` | app/ocache/ocache.go:180-237 | at every reachable state at most one unclosed object exists per id |
| `ObjectCacheTheorems.OneLoadPerId` | app/ocache/ocache.go:331-346 | at most one load function runs per id |
| `ObjectCacheTheorems.ClosedAtMostOnce` | app/ocache/ocache.go:403-427 | no object is closed twice and no channel is |
| `ObjectCacheTheorems.ChannelsOpenUntilClosed` | app/ocache/entry.go:177-193 | whoever is about to close a load channel or a close channel finds it open |
| `ObjectCacheTheorems.ExclusiveOwner` | app/ocache/entry.go:124-193 | an entry is closing exactly when some thread owns the transition, and then one thread does |
| `ObjectCacheTheorems.MapHoldsLive` | app/ocache/ocache.go:399-408 | active and closing entries are the ones the map holds for their id, closed ones are never in it |
| `ObjectCacheTheorems.ValueOrError` | app/ocache/ocache.go:332-345 | a caller of Get or Pick gets exactly one of a value and an error |
| `ObjectCacheTheorems.GetReturnsItsId` | app/ocache/ocache.go:180-237 | the value Get returns is an object of the id that was asked for |
| `ObjectCacheTheorems.RetriesBounded` | app/ocache/ocache.go:174-235 | in every run a Get call retries an aborted load at most three times |
| `ObjectCacheTheorems.SuccessIffRemoved` | app/ocache/ocache.go:410-449 | Remove, RemoveSame and TryRemove report success exactly when the call itself finalized the entry |
| `ObjectCacheTheorems.RemoveSameClosesItsOwn` | app/ocache/ocache.go:429-449 | RemoveSame closes the instance it was given, once, and no other object |
| `ObjectCacheTheorems.LeakIffAbandoned` | app/ocache/ocache.go:641-677 | when all threads of a closed cache have finished an object is unclosed exactly when the pass gave up on its entry while it was active |
| `ObjectCacheTheorems.LeakIffGivenUp` | app/ocache/ocache.go:641-677 | over the run: exactly when some step of the pass gave up on the entry between publish and release and no later step acquired it |
| `ObjectCacheTheorems.NoLeak` | app/ocache/ocache.go:364-377 | if the pass never gives up between publish and release, every object has then been closed exactly once |
| `ObjectCacheTheorems.CloseMayLeak` | app/ocache/ocache.go:332-345 | a run in which it does, and a value stays unclosed |
| `ObjectCacheTheorems.LeftInMap` | app/ocache/ocache.go:641-677 | whatever such a cache still maps are the entries given up on |
| `ObjectCacheTheorems.NoLostWakeup` | app/ocache/entry.go:81-175 | whoever a parked thread waits for is in the middle of a call and can take a step, so no deadline is needed for progress |
| `ObjectCacheTheorems.DeadlineEndsWait` | app/ocache/entry.go:81-122 | exactly the threads that wait can give up on a deadline; a completed load wins over it |
| `ObjectCacheProgress.EveryStepNearer` | app/ocache/ocache.go:180-677 | every step of a call begins, ends or passes over a closing transition, or brings the call nearer to its end without disturbing any other |
| `ObjectCacheProgress.RunsAreBounded` | app/ocache/ocache.go:180-677 | from any reachable state a run in which no call starts is no longer than the budget of that state |
| `ObjectCacheProgress.EndsWhenStuck` | app/ocache/entry.go:81-175 | a run that cannot go on without a deadline has ended every call |
| `ObjectCacheProgress.AllCallsEnd` | app/ocache/entry.go:81-175 | from any reachable state all calls can end without a deadline |
| `ObjectCacheCalls.CallOutcome` | app/ocache/ocache.go:180-677 | in every run each call is under way on the entry its arguments name, or has ended by a step that was entitled to end it that way |
| `ObjectCacheCalls.GetStep` | app/ocache/ocache.go:180-237 | a step of a Get goes on for the same id, or ends it: ErrClosed on a closed cache, the context error only while waiting, else the value or error of an entry of the id |
| `ObjectCacheCalls.RemoveStep` | app/ocache/ocache.go:410-427 | a step of a removal gives up exactly for a passed deadline, a failed load or a finalized entry; else it goes on, and it ends by finalizing |
| `ObjectCacheCalls.TryStep` | app/ocache/ocache.go:500-536 | likewise for TryRemove and GC: the value is finalized when it agrees, restored when it declines, and closed when it declines on a closed cache |
| `ObjectCacheOutcomes.AnswersHaveCauses` | app/ocache/ocache.go:180-253 | in every run a Get or Pick that is over got an object loaded or added for its id, or an error with its cause: ErrClosed a closed cache, the context error a deadline of this call, ErrNotExists a Pick of an unmapped or closing id, the others what a load of the id did |
| `ObjectCacheOutcomes.EntryExplained` | app/ocache/ocache.go:331-381 | every entry holds what its load function returned or Add brought; a value that arrives after Close becomes ErrClosed |
| `ObjectCacheOutcomes.RetryIff` | app/ocache/ocache.go:216-235 | a Get that reads the result of a load starts over exactly when the load was killed, the caller is alive and it has started over less than three times; else it ends with that result |
| `ObjectCacheOutcomes.CachedIsReturned` | app/ocache/ocache.go:180-237 | a Get of a cached id whose entry is not finalized and whose cache is not closed meanwhile ends with the cached object, unless its own deadline passes |
| `ObjectCacheOutcomes.ReturnedWasLive` | app/ocache/ocache.go:180-237 | in every run the object a Get returns is that of an entry the call has found neither closing nor closed |
| `ObjectCacheOutcomes.PickReturnsCached` | app/ocache/ocache.go:239-253 | a Pick that finds a value returns it, unless its own deadline passes before the load channel is closed |
| `ObjectCacheOutcomes.PanicsIffLoadDid` | app/ocache/ocache.go:331-345 | a Get that ran the load itself panics exactly when the load function did |
| `ObjectCacheOutcomes.AddIs` | app/ocache/ocache.go:550-568 | Add on a free id of an open cache maps the id to an active, loaded entry of the object |
| `ObjectCacheOutcomes.NothingToRemove` | app/ocache/ocache.go:383-397 | a removal on a closed cache, of an unmapped id or of another instance reports false |
| `ObjectCacheOutcomes.FailedRemovalWasObstructed` | app/ocache/ocache.go:410-449 | in every run a Remove or RemoveSame with a target that reports false saw its deadline pass, the load fail or another thread finalize the entry |
| `ObjectCacheOutcomes.ReportedRemovalRemoved` | app/ocache/ocache.go:399-427 | a removal that reports true has taken its target out of the map for good and closed its object once |
| `ObjectCacheOutcomes.RemovalSucceeds` | app/ocache/ocache.go:410-449 | a Remove or RemoveSame with a target that is over and was not obstructed reports true, and its target is gone |
| `ObjectCacheOutcomes.TryRemoveOutcome` | app/ocache/ocache.go:470-536 | a TryRemove with a target reports false only if the entry was not active or the value declined, and true only if the value agreed or declined on a closed cache |
| `ObjectCacheOutcomes.TryRemovalSucceeds` | app/ocache/ocache.go:470-536 | a TryRemove that finds its target active, and whose value does not decline, removes it |
| `ObjectCacheOutcomes.ChannelStays` | app/ocache/entry.go:131-193 | a close channel that has been closed stays closed, so a waiter is woken for good; an acquisition makes a new one |
| `ObjectCacheOutcomes.EveryEntryVisited` | app/ocache/ocache.go:607-677 | when GC is over it has tried every entry it picked, and when Close is over its pass has come to every entry the map held when the cache was closed |
| `Topics.SplitTopic` | commonspace/pubsub/topic.go:20-37 | the loop over the sixteen-slot array computes the split |
| `Topics.JoinSplit` | commonspace/pubsub/topic.go:20-37 | joining the segments restores any topic; all but an overflow segment are separator-free |
| `Topics.SplitJoin` | commonspace/pubsub/topic.go:20-37 | splitting a join of at most sixteen separator-free segments restores them |
| `Topics.ValidateTopic` | commonspace/pubsub/topic.go:57-68 | accepts exactly the texts of 1 to 256 characters with fewer than sixteen separators, none leading, trailing or doubled, and no wildcard character |
| `Topics.ValidatePattern` | commonspace/pubsub/topic.go:72-92 | the same with wildcards as whole segments and '>' last |
| `Topics.ValidSpaceIff` | commonspace/pubsub/topic.go:94-101 | the space ids accepted are exactly the non-empty ones that end at the first separator of their tags |
| `Topics.TagInjective` | commonspace/pubsub/service.go:939-941 | a tag names one space and one pattern once space ids have no separator |
| `Topics.TagAmbiguous` | commonspace/pubsub/topic.go:94-101 | without that validation two interests share a tag |
| `PatternTries.AddOk` | commonspace/pubsub/trie.go:35-57 | Add raises one multiplicity by one and keeps the trie healthy; size grows exactly for a new pattern |
| `PatternTries.RemoveOk` | commonspace/pubsub/trie.go:61-96 | Remove lowers one positive multiplicity by one, prunes, and reports the last reference |
| `PatternTries.MatchOk` | commonspace/pubsub/trie.go:102-132 | Match lists each live pattern that covers the topic once and nothing else |
| `Tries.NoDeadBranch` | commonspace/pubsub/trie.go:92-95 | every branch that remains leads to a live pattern |
| `Tries.FoundExact` | commonspace/pubsub/trie.go:107-132 | the paths collected are exactly the live ones that match segment by segment, or with a tail wildcard over one or more segments |
| `PatternTries.PatternTrie.Len` | commonspace/pubsub/trie.go:29-31 | the number of different patterns with a positive count |
| `PatternTries.PatternTrie.Add` | commonspace/pubsub/trie.go:35-57 | the object's multiset gains one reference |
| `PatternTries.PatternTrie.Remove` | commonspace/pubsub/trie.go:61-96 | the object's multiset loses one reference, if it had one |
| `PatternTries.PatternTrie.Match` | commonspace/pubsub/trie.go:102-121 | the live patterns that cover the topic, each once |
| `Interest.TakeMeaning` | commonspace/pubsub/service.go:555-569 | a subscribe message records the topics ahead of the first one that meets a reached cap, and rejects the rest |
| `InterestEngine.Engine.HandleSubscribe` | commonspace/pubsub/service.go:502-590 | answers in the order of the checks; a stream without a record gets the account that subscribes and an existing one keeps its own; records and tags what the caps allow, or nothing when the stream is gone, with refcounts, totals, caps and tags consistent |
| `InterestEngine.Engine.Withdraw` | commonspace/pubsub/service.go:597-618 | exactly the given patterns, or all of the space, leave records and trie; their tags stay in the pool and are accounted for |
| `InterestEngine.Engine.Untag` | commonspace/pubsub/service.go:620-628 | after whatever happened since, takes the withdrawn tags out, so that the stream's tags are its recorded interest again |
| `InterestEngine.Engine.HandleUnsubscribe` | commonspace/pubsub/service.go:592-629 | both: withdraws exactly the given patterns, or all of the space, and keeps everything consistent |
| `InterestEngine.Engine.RemoveStreamPattern` | commonspace/pubsub/service.go:887-901 | one pattern of one stream leaves its record and the trie together |
| `InterestEngine.Engine.OnStreamClose` | commonspace/pubsub/service.go:862-885 | the closed stream's contribution leaves every trie, siblings untouched |
| `InterestEngine.Engine.CloseSpace` | commonspace/pubsub/service.go:357-375 | the space's trie, records and tags go, everything else stays |
| `InterestEngine.Engine.EvictSpaceStreams` | commonspace/pubsub/service.go:396-422 | exactly the evicted accounts lose their interest in the space |
| `InterestEngine.Engine.SubscribeThenEvict` | commonspace/pubsub/service.go:396-422 | after a subscribe of a new stream an eviction of its account leaves the stream no interest in the space |
| `InterestEngine.Engine.MatchTopic` | commonspace/pubsub/service.go:711-718 | under the lock: exactly the patterns some stream records that cover the topic |
| `InterestEngine.Engine.Broadcast` | commonspace/pubsub/service.go:719-730 | after whatever happened since: reaches exactly the streams that record one of the patterns now or whose unsubscribe from it has not reached the pool |
| `InterestEngine.Engine.Fanout` | commonspace/pubsub/service.go:711-730 | both: reaches exactly the subscribed streams and those between the halves of an unsubscribe |
| `Dedup.MsgIdDedup.Seen` | commonspace/pubsub/dedup.go:26-48 | answers whether the id is in the window, and pushes it when it is new |
| `Dedup.SuppressedIff` | commonspace/pubsub/dedup.go:24-48 | over any run an id is suppressed exactly when it is among the last size ids recorded |
| `Dedup.DispatchedOncePerWindow` | commonspace/pubsub/service.go:773-777 | an id is dispatched again only after at least size other recordings |
| `SignData.PublishSignData` | commonspace/pubsub/sign.go:16-28 | the buffer is the encoding and has the precomputed length |
| `SignData.SignedLayout` | commonspace/pubsub/sign.go:16-28 | the signed bytes by offset: prefix, the four fields behind their lengths, eight bytes of timestamp, then the payload |
| `SignData.PrefixIs` | commonspace/pubsub/sign.go:10-16 | the seventeen bytes of the prefix |
| `SignData.SignedInjective` | commonspace/pubsub/sign.go:12-28 | equal signed bytes mean equal space, topic, message id, key id, timestamp and payload, for field lengths below 2^32 |
| `SignData.LongFieldsCollide` | commonspace/pubsub/sign.go:21-24 | at length 2^32 two different messages have the same signed bytes |
| `SignData.RelayedNotSigned` | commonspace/pubsub/sign.go:12-16 | the relayed flag is not covered |
| `Relay.AtMostOneHop` | commonspace/pubsub/service.go:650-708 | in every run a client's message reaches a responsible node from other nodes at most once for each other responsible node it entered at, and no other node |
| `Relay.FramesDrain` | commonspace/pubsub/service.go:631-708 | every run ends within (1 + clients)(1 + responsible nodes) deliveries for each peer the client sent to |
| `Relay.EverySubscriberServed` | commonspace/pubsub/service.go:650-708 | in a run that loses nothing and has run dry, a message that entered at a responsible node has been sent to every subscriber of every responsible node |
| `Relay.RunsDry` | commonspace/pubsub/service.go:631-708 | every state can be run dry without losing anything |
| `Lifecycle.App.Start` | app/app.go:247-323 | Start works at most once and never on a closed App; its calls and result for every failure point |
| `Lifecycle.App.Close` | app/app.go:360-421 | Close covers what was initialised and not closed by a failed Start; a second one does nothing |
| `Lifecycle.EachCallOnce` | app/app.go:247-323 | Init and Run at most once, Run only when every Init succeeded, Close at most once and only after Init, and after Close every initialised runnable closed exactly once |
| `Lifecycle.InitsFirst` | app/app.go:287-315 | every Init precedes every other call |
| `Lifecycle.CallsExactly` | app/app.go:247-323 | exactly which components are initialised, run and closed, for every failure point |
| `Lifecycle.CallOrder` | app/app.go:247-421 | Init and Run go in the order of registration and Close in the reverse order, within one Start and within one Close |
| `Deletion.DeletionState.Run` | commonspace/deletionstate/deletionstate.go:44-77 | the stored sets, with live children of deleted parents queued; queued and deleted disjoint |
| `Deletion.DeletionState.Add` | commonspace/deletionstate/deletionstate.go:106-131 | queues and reports exactly the ids that are new and could be stored |
| `Deletion.DeletionState.Delete` | commonspace/deletionstate/deletionstate.go:152-158 | moves an id from queued to deleted, also when it reports that the status could not be stored; the known ids only grow |
| `Deletion.DeletionState.Filter` | commonspace/deletionstate/deletionstate.go:166-185 | keeps the ids that are neither queued nor deleted, in order |
| `Deletion.UnknownMeaning` | commonspace/deletionstate/deletionstate.go:166-185 | as often as they came |
| `HeadPipeline.DeletedNeverReturns` | commonspace/headsync/diffmanager.go:106-131 | once a deletion update of the deletion state is drained the id is out of the diff for the rest of every run |
| `HeadPipeline.OutIffSafe` | commonspace/headsync/diffmanager.go:106-131 | in every state an id outside the diff stays out in every continuation exactly when the deletion state holds it, or storage has it deleted and no reviving update is on its way |
| `HeadPipeline.DrainedDeletionStays` | commonspace/headsync/headstorage/headstorage.go:165-226 | after any deletion update is drained, whoever caused it, the id stays out for good exactly when it is held or no older live update of it is on its way |
| `HeadPipeline.DrainedDeletionIsFinal` | commonspace/object/tree/objecttree/storage.go:140-174 | it stays out unconditionally while only trees of held ids are dropped, because a status set at creation has no older live update |
| `HeadPipeline.BoundChildReturns` | commonspace/deletionmanager/deleter.go:66-100 | a run in which the tree of an unknown bound child is dropped and created again, and its drained deletion is not final |
| `HeadPipeline.OnlyGrows` | commonspace/deletionstate/deletionstate.go:106-158 | what is known, drained or deleted in storage stays so |
| `HeadPipeline.DiffIsLatest` | commonspace/headsync/diffmanager.go:106-131 | when no update is being applied the diff has of each id the head of the last drained update that counted, or what it was filled with, and nothing after a deletion |
| `HeadPipeline.FirstInFirstOut` | commonspace/headsync/headupdater.go:23-39 | the updates drained and those queued are the ones handed over, in that order |
| `HeadPipeline.NothingLost` | commonspace/headsync/headstorage/headstorage.go:165-226 | every update that a commit causes is still pending or has been announced, each once |
| `HeadPipeline.DeletionsAreTold` | commonspace/deletionstate/deletionstate.go:106-131 | in every run an id queued for deletion in storage has an update that says so among those committed or announced, or an Add is about to announce it |
| `HeadPipeline.KnownUnderLock` | commonspace/deletionstate/deletionstate.go:106-158 | the known ids change only while no Add is under way or by the Add that is, and the deletion state is loaded before the diff is filled |
| `HeadPipeline.HeadsAreSourced` | commonspace/headsync/diffmanager.go:59-131 | every head in the diff was stored at startup or committed live, and empty roots never enter through updates |

## Left out

- Hashing: blake3 is an ideal hash, a digest is the term that was hashed; the code hashes ids and heads without separators. xxhash is an arbitrary function from ids to words, injective only where `DistinctBatchFits` says so.
- The skiplist is an ordered sequence and parent pointers are keys; a search by an element with an empty id is not modelled.
- Container.Diff.constructor: divide factors that are not powers of two are excluded, because getBottomRange then looks up ranges that do not exist (`BottomAgreesIff`, `TopDivisibleIff`).
- Container.Diff.Set: requires `Fits`, that no step of the batch divides a range narrower than the factor; what the code does after such a division (pieces without a hash, a division by zero on the next descent) is not modelled.
- Container.Diff.Reconcile: the remote answers from a container that does not change during the exchange; errors of the transport and the 32-bit count of the wire form are not modelled.
- Peek, WaitClosing, ForEach, Len, DoLockedIfNotExists, metrics and the GC deadline of the object cache; which entries GC picks is arbitrary among the active ones. A step that panics inside an object's Close or TryClose is not modelled.
- ObjectCacheTheorems.ClosedAtMostOnce: a load and Add bring objects the cache has not seen before; the code accepts one object under two ids and would then close it once for each.
- ObjectCacheProgress: that a load function, an object's Close and its TryClose return is taken for granted, as a step each.
- The levels of the trie are values inside the trie object: sharing of nodes between levels is not captured.
- Failures of tag removal are ignored as in the code. The messages of one stream are handled one at a time, as its read loop does (`net/streampool/stream.go:46-64`).
- Local subscriptions, publishing, the dispatch queue, rate limits and timestamps of the pub/sub service. In the relay model authorisation is arbitrary, and subscribers are clients.
- App.Register, component lookup, timing statistics and the close watchdog.
- FillDiff's choice of elements is arbitrary in `HeadPipeline`, and so are the heads other writers commit and the order in which commits are announced. An entry written in a transaction that is rolled back later is not modelled.
- Requests without a stream id or identity in their context, which the serving side answers with an error before anything else.
- Strings are sequences of characters; topic lengths are counted in characters where the code counts bytes.
- Trees, ACLs, key exchange, storage, network and node configuration: not part of this model.
