# Verified model of the safety-label cache, the evaluate-tweets client and the candidate pipeline

A Dafny model of three parts of the repository, with proofs about every input,
every run or every reachable state of each. `dafny verify dfyconfig.toml` checks
the whole project.

**The tiered safety-label cache** (`safety-label-source/`). A lookup asks a
ten-second hot-key cache, then Twemcache or the label cache (Dragonfly), then
Manhattan, the store of truth.

- `Labels`, `Wire`, `LabelEntry`: raw items and label maps, the protobuf form of a
  stored entry, its TTL and its refresh schedule. The wire form follows "Base 128
  Varints" and "Length-Delimited Records" of the Protocol Buffers Encoding guide.
- `Manhattan`, `LabelCacheProtocol`: the concurrent system as steps of any number of
  lookups and shadow passes, `fill` calls, the writer, stores by other servers,
  evictions, invalidations, Manhattan changes and the clock, in any order. Manhattan is the history of its
  changes, so "held at time t" has a meaning after the fact.
- `Servers`: any number of servers over one label cache, started at any time, with stores
  that are applied after they were given up for failed. Every server goes through a run
  of the protocol, so whatever holds in every run holds of every server.
- `PendingFills`, `PendingRelease`, `Staleness`: what every run keeps: the exactness of
  the pending set, which every schedule releases, and the bounded age of everything
  served.
- `FillLock`, `Generations`, `Invalidations`, `FillRaces`: the pending mark as an
  lock on a post's entry among the fills of one server, and from it exactly when a
  write lowers a stored generation, and when it brings back what an invalidation was meant to drop.
- `FillQueue`, `RemoteSource`, `SafetyLabelSource`, `ShadowCheck`: the imperative
  code, proved against specifications, and tied to the protocol: a `fill` call and a
  batch of the writer are runs of protocol steps (`FillRuns`), a lookup is a
  protocol task (`LookupIsATask`), a whole shadow pass queues only fills its task may
  queue (`ShadowPass`).
- `TwoTierStaleness`: the age of every answer of the whole lookup. What the steps of a run
  and evictions make of the hot-key cache mirrors the protocol's, caching an answer is a
  protocol step, and so the contract of `HotKeyCache.Get` and the bounds of every run
  give the bound on its results.

**Evaluate-tweets batching** (`visibility-filtering-client/vf_client.rs`,
`visibility-filtering/evaluate_tweets.rs`). `ChunkGroups`, `ChunkPacking` and
`ChunkPlanner` plan the RPCs, `EvaluateTweets` puts the answers back in order,
`OutcomePairing` is the server's greedy pairing of outcomes with entries.

**The candidate pipeline** (`candidate-pipeline/`). `CachedHydrator` is the blanket
hydrator over a cache store, `StableSort` the selector's sort, `Pipeline` the run from
sources to the final list.

Foreign code is a parameter: Thrift decoders are arbitrary partial functions, hashes
arbitrary functions into buckets, rate limiters and cache or Manhattan replies arbitrary
answers. Clocks are arguments; only the protocol requires its clock not to go back.
Panics of the label decoder are modelled as the failure that `catch_unwind` makes of
them. Where code shares a cache with other tasks (the hot-key cache, the cached
hydrator's store), an argument `meanwhile` says what the others and evictions have made
of it before each turn, and every contract holds whatever it says.

Three properties one might expect are false of the code. Each has a failing input and its
exact condition:

- The stored generation of an entry may go down (`FillRaces.StepGoesDown` and, over a
  store by another server, `FillRaces.OtherServerIsLowered`, both runs from the initial
  state). A write lowers it if and only if the generation that it finds is above the
  job's: that of the last store by another server since the `fill` call admitted the job,
  none if the entry was removed after that, and if neither happened, the one that was
  stored then (`Generations.GenerationFallsIff`). A refresh of the generation stored at
  admission fails to raise it only over such a later store by another server
  (`Generations.CurrentRefreshRaises`).
- An invalidation may be followed by a write of older labels
  (`FillRaces.InvalidationIsOutrun`). A write misses a change that an invalidation
  followed if and only if the change came between the step at which the job's items were
  read and the invalidation (`Invalidations.InvalidationIsOutrunIff`).
- The liveness test of a label subtracts with wrap-around
  (`Labels.LivenessWrapsAround`). It means "expires later than now" exactly when the
  difference of the two times, in milliseconds, is at least -2^63 and less than 2^63
  (`Labels.LivenessIsPlainComparison`).

## Model

| member | source | states |
|---|---|---|
| `Staleness.RunIsSound` | safety-label-source/dragonfly.rs:601-978 | in every reachable state, every stored entry, whoever stored it, every queued or held job, writer batch, read of a task and hot-key entry is justified by items that Manhattan held in the window its age allows |
| `Servers.ServerGoesThroughRun` | safety-label-source/connect.rs:245-270 | in every run of any number of servers over one cache, started at any time, with stores applied late, each server goes through a run of the protocol in the world that all share |
| `Servers.HitsOfAnyServerAreYoung` | safety-label-source/dragonfly.rs:246-252 | the same of a hit of any server, whichever server stored the entry and however late |
| `Staleness.StoredEntriesAreManhattanStates` | safety-label-source/dragonfly.rs:936-955 | in every run, everything stored in the label cache decodes, to the type-restricted labels of items Manhattan held at some moment at or after the entry's `filled_at_ms` |
| `Staleness.HitsAreYoung` | safety-label-source/dragonfly.rs:246-252 | in every run, a label-cache hit shows what Manhattan held for the post, nothing for no items and otherwise each label of a known type, less than 1000 * max(TTL switch, 60) ms, by the switch for posts without or with labels, before the lookup |
| `Staleness.LookupAnswersAreYoung` | safety-label-source/remote.rs:291-347 | every answer a lookup task may give, by hit or by its own scan, has after expiry filtering exactly the live labels, or those of known types, of a Manhattan state within the larger of the two TTLs, at least 60 s |
| `Staleness.HotAnswersAreYoung` | safety-label-source/source.rs:178-233 | a hot-key entry still within 10 s has exactly the live labels of a Manhattan state no older than 10 s plus that limit plus the duration of the call that fetched it |
| `TwoTierStaleness.EveryAnswerIsYoung` | safety-label-source/source.rs:119-155 | of the result of `HotKeyCache.Get`, on the cache that the steps of a run and any evictions have made of an empty one before the lookup and between its turns: when the label cache serves every post and no read fails, every good answer is the live part of a Manhattan state, within the age limit of the lookup's start if it was fetched, and otherwise, at the time its position was looked up, within 10 s plus the age limit plus the duration of the call that fetched it |
| `TwoTierStaleness.FetchedAnswersAreYoung` | safety-label-source/source.rs:130-154 | the answers of `RemoteSource.Get` for posts of the label cache have that bounded age, for every run in which the lookup is a task |
| `TwoTierStaleness.BackfillIsAStep` | safety-label-source/source.rs:217-229 | caching a good answer of a served post is an enabled protocol step, and the cache goes on mirroring the protocol's hot-key entries, `expires_at` included |
| `TwoTierStaleness.StepsKeepMirrors` | safety-label-source/source.rs:178-233 | any steps of other tasks, and any evictions besides, keep the mirror |
| `TwoTierStaleness.PassMirrors` | safety-label-source/source.rs:178-202 | the cache a pass finds mirrors the protocol's hot-key entries, at its start and through its turns |
| `TwoTierStaleness.LookupLeavesRunCache` | safety-label-source/source.rs:119-155 | a lookup whose turns fall into a run leaves what the run's steps, its own among them, and evictions make of an empty cache, which is what the next lookup is taken to find |
| `TwoTierStaleness.HitsAreYoungEnough` | safety-label-source/source.rs:189-193 | a hit of the hot-key cache, at the clock of its position and with the content the cache has then, has the two-tier bound |
| `PendingFills.StepKeepsPending` | safety-label-source/dragonfly.rs:601-641 | every step, of any task or of the writer, keeps: an id is in `pending_fills` exactly when one job for it is held, queued or in flight; the queue and the batch stay within their limits |
| `PendingFills.RunKeepsPending` | safety-label-source/dragonfly.rs:601-641 | the pending set is exact in every state of every run |
| `PendingFills.OneFillPerPendingId` | safety-label-source/dragonfly.rs:936-978 | pending means exactly one job on its way, never two; no writer batch repeats an id or exceeds 100 |
| `PendingFills.BuildWritesExact` | safety-label-source/dragonfly.rs:944-955 | in a batch without repeated ids, the writes are exactly those of the scanned jobs and of the reread jobs Manhattan answered, each with its own generation and items |
| `PendingFills.NoScanIsLost` | safety-label-source/dragonfly.rs:943-955 | in every run, no reread job loses its scan to another job of the batch |
| `PendingRelease.EveryScheduleReleases` | safety-label-source/dragonfly.rs:620-641 | in every run from any point on, whatever else happens and is answered, without a new fill call the fills go on by no more steps than there is work at that point, and once none is left to take nothing is queued and nothing is pending |
| `PendingRelease.GoingOnUsesWork` | safety-label-source/dragonfly.rs:601-978 | every step of a fill call or of the writer uses up work, whatever the scans and stores answer |
| `PendingRelease.CanRelease` | safety-label-source/dragonfly.rs:601-978 | from every state with an exact pending set, such steps alone release everything |
| `FillLock.PlaceIsExclusive` | safety-label-source/dragonfly.rs:607-619 | exactness of the pending set leaves a pending job one place: held, refused, queued, in the batch or built |
| `FillLock.StepKeepsLock` | safety-label-source/dragonfly.rs:601-971 | while an id stays pending, no step of another fill or task of this server touches the entry of its post; a removal or a store by another server does, as stated |
| `Generations.FillIsALock` | safety-label-source/dragonfly.rs:601-971 | in every run, from the call that admits a job until its id is unmarked, the entry of its post is the job's own, or what the last removal or store by another server left, or unchanged if there was none |
| `Generations.WriteReplaces` | safety-label-source/dragonfly.rs:944-955 | a write replaces what others left of the entry that was there when its job was admitted, by the job's own generation and items |
| `Generations.GenerationFallsIff` | safety-label-source/dragonfly.rs:153-168 | the write lowers the stored generation, or the stored step, if and only if the one it finds, by the last touch of others since admission or else the entry at admission, is above the job's |
| `Generations.CurrentRefreshRaises` | safety-label-source/dragonfly.rs:153-168 | a refresh of the generation stored at admission fails to raise the stored generation if and only if the last to touch the entry since is another server with a generation that the refresh is not above |
| `FillRaces.StepGoesDown` | safety-label-source/dragonfly.rs:153-168 | a run from the initial state in which the stored step goes from 2 to 1 |
| `FillRaces.OtherServerIsLowered` | safety-label-source/connect.rs:245-270 | a run in which a fill that found nothing is written over the twice refreshed entry another server has stored since |
| `Invalidations.WritesWhatWasRead` | safety-label-source/dragonfly.rs:943-955 | a write stores what Manhattan held at one step: its task's last scan before the call, or the writer's own scan for it |
| `Invalidations.InvalidationIsOutrunIff` | safety-label-source/dragonfly.rs:413-426 | for an invalidation at any step, the write misses a change that it followed if and only if the post changed between the reading step and the invalidation; otherwise it stores the state at the invalidation or later |
| `Invalidations.LateRereadIsCurrent` | safety-label-source/dragonfly.rs:943-955 | a reread admitted after an invalidation stores items read after it |
| `FillRaces.InvalidationIsOutrun` | safety-label-source/dragonfly.rs:413-426 | a run from the initial state in which a label is added, the entry is invalidated, and an older fill is then stored |
| `FillQueue.LabelCacheWriter.Mark` | safety-label-source/dragonfly.rs:605-619 | the jobs kept and the ids marked are those of `Admit` on the old pending set |
| `FillQueue.LabelCacheWriter.SendAll` | safety-label-source/dragonfly.rs:620-627 | a prefix of the jobs is queued, as long as there is room; the ids of the rest are returned |
| `FillQueue.LabelCacheWriter.Fill` | safety-label-source/dragonfly.rs:601-641 | queues in order the first jobs of ids not pending as far as there is room, and leaves exactly those newly marked; duplicates are exactly the other jobs; a job is dropped only where the queue is full, and if none is, every id is pending and every new job is queued; keeps "pending ids are those of the queue, one job each" |
| `FillQueue.AdmittedAreNew` | safety-label-source/dragonfly.rs:612-618 | admitted jobs have distinct ids, none pending before, and exactly their ids become pending |
| `PendingFills.AdmitsExactlyNew` | safety-label-source/dragonfly.rs:612-618 | the admitted jobs are, in order, exactly those whose id is not pending and that no earlier job of the call has |
| `PendingFills.AdmitMarksAll` | safety-label-source/dragonfly.rs:612-618 | afterwards exactly the ids pending before and all ids of the call are marked |
| `FillQueue.LabelCacheWriter.Write` | safety-label-source/dragonfly.rs:936-970 | the cache afterwards is the old one with the batch's writes whose store succeeds; all ids of the batch are unmarked; written and failed are counted |
| `FillQueue.BuildIsOneByOne` | safety-label-source/dragonfly.rs:943-955 | removing each scan from the results as it is used gives the same writes as looking each one up, when no batch repeats an id |
| `FillQueue.StoredCountIs` | safety-label-source/dragonfly.rs:956-962 | the writes counted are those whose store succeeds |
| `FillQueue.LabelCacheWriter.Drain` | safety-label-source/dragonfly.rs:973-978 | while other tasks go on filling the queue: batches of 1 to 100 distinct ids hold the queued and the accepted jobs, each once and in order; if none was dropped, which needs more jobs than the queue holds, the id of every given job is among them; the cache is what writing them with the answers of each batch gives; nothing stays queued or pending |
| `FillQueue.BatchesDoNotMatter` | safety-label-source/dragonfly.rs:973-978 | with the same answers throughout, the batches make no difference: the cache is what writing the jobs one by one gives |
| `FillRuns.UninterruptedFill` | safety-label-source/dragonfly.rs:601-641 | marking, sending and unmarking are a run of protocol steps that ends with the queue and pending set of `Fill` |
| `FillRuns.UninterruptedWrite` | safety-label-source/dragonfly.rs:936-978 | taking a batch, scanning, building, storing and unmarking are a run of protocol steps that ends with the cache and pending set of `Write` |
| `LabelEntry.EntryRoundTrip` | safety-label-source/dragonfly.rs:189-244 | decoding an encoded entry gives its fill, with NotFound for no items and otherwise the type-restricted labels; it fails exactly when the items' labels do not decode |
| `LabelEntry.EntryHasVersion` | safety-label-source/dragonfly.rs:201-217 | a stored value begins with version 2, and a value of any other version, or none, does not decode |
| `LabelEntry.BadEntriesAreRejected` | safety-label-source/dragonfly.rs:218-238 | an entry whose step does not fit a byte, or with a key that is not four bytes long, does not decode |
| `Wire.VarintRoundTrip` | safety-label-source/dragonfly.rs:171-187 | reading a written varint gives back the value and the bytes after it, within the ten-byte limit |
| `Wire.FieldsRoundTrip` | safety-label-source/dragonfly.rs:171-187 | any list of fields with 29-bit tags reads back from its bytes |
| `Wire.StoredEntryRoundTrip` | safety-label-source/dragonfly.rs:171-204 | every stored entry, and any other whose items are short enough to have a length, decodes from its protobuf form to itself, default fields left out included |
| `Wire.ItemLayout` | safety-label-source/dragonfly.rs:181-187 | the bytes of an item: key under tag 1, value under tag 2, with their lengths |
| `Wire.EntryLayout` | safety-label-source/dragonfly.rs:171-179 | the bytes of an entry: fill time and step as varints under tags 1 and 2, items under tag 3 |
| `LabelEntry.RefreshKeepsLife` | safety-label-source/dragonfly.rs:153-168 | a step refresh keeps `filled_at_ms` and is live exactly when the entry was; only the cutoff restarts a life, at the time of the read |
| `LabelEntry.ChainUsesUpRefreshes` | safety-label-source/dragonfly.rs:153-168 | under a fixed cutoff each refresh uses up one of max(0, 2 - step) plus 3 if filled before the cutoff |
| `LabelEntry.RefreshesStop` | safety-label-source/dragonfly.rs:145-168 | a chain of refreshes under a fixed cutoff has length at most five, at any times |
| `LabelEntry.FiveRefreshesHappen` | safety-label-source/dragonfly.rs:145-168 | five is attained |
| `LabelEntry.RefreshIsDueIff` | safety-label-source/dragonfly.rs:153-168 | when a refresh is due and which: a new life for an entry from before a cutoff that has come, otherwise step 1 from 30 s and step 2 from 90 s on, for an entry that has not had it, and none in any other case |
| `LabelEntry.Read` | safety-label-source/dragonfly.rs:527-599 | one read per id in order: a live decoded entry is a hit with its due refresh, an expired, undecodable or absent one a miss, an error or a missing reply a failure |
| `LabelEntry.ReadIsHitIff` | safety-label-source/dragonfly.rs:541-563 | a stored entry is a hit if and only if its age is below 1000 * max(TTL switch of its kind, 60) ms, and then shows its generation, its due refresh and exactly its labels of known types; otherwise a miss |
| `LabelEntry.ReadIsFailureIff` | safety-label-source/dragonfly.rs:564-580 | an absent or undecodable entry is a miss; an error, a missing reply and a bad key, and nothing else, are failures |
| `Labels.RawLabels` | safety-label-source/decode.rs:43-65 | the map built item by item, or none when a value panics the decoder |
| `Labels.DecodingFails` | safety-label-source/decode.rs:43-49 | decoding fails exactly when some value panics the decoder |
| `Labels.DecodedTypes` | safety-label-source/decode.rs:51-65 | the label types of the map are exactly those of the items |
| `Labels.LastItemWins` | safety-label-source/decode.rs:51-65 | the last item of a type gives its label, the default label if its value is corrupt |
| `Labels.LivenessIsPlainComparison` | safety-label-source/source.rs:35-40 | the wrapping comparison is "expires after now" exactly when the difference fits 64 bits; a label without expiry is live |
| `Labels.LivenessWrapsAround` | safety-label-source/source.rs:35-40 | times at which it is not, both ways |
| `Labels.ExpiryFilterIsExact` | safety-label-source/source.rs:42-54 | dropping expired labels keeps each live label unchanged and no other; with the type filter, each live label of a known type |
| `Labels.TypeFilterIsExact` | safety-label-source/dragonfly.rs:286-293 | the type filter keeps each label of a known type unchanged and no other |
| `Labels.FiltersCommute` | safety-label-source/dragonfly.rs:282-293 | the type and expiry filters commute, and filtering an already type-restricted map changes nothing more |
| `ShadowCheck.CheckManhattan` | safety-label-source/dragonfly.rs:754-821 | the repairs queued are those of `Repairs`, each scan used once, by the first hit of its post |
| `ShadowCheck.RepairedIffDiffers` | safety-label-source/dragonfly.rs:771-815 | a job is a repair exactly when Manhattan answered a hit, the filtered entry differs from filtered Manhattan, and the job carries Manhattan's items and the pass's time |
| `ShadowCheck.DiffersIff` | safety-label-source/dragonfly.rs:780-809 | an entry differs from Manhattan exactly when their live labels of known types differ, and never when Manhattan did not answer |
| `ShadowCheck.ClassMeans` | safety-label-source/dragonfly.rs:859-878 | the class says which of entry, answer and Manhattan agree, case by case |
| `ShadowCheck.RepairConverges` | safety-label-source/dragonfly.rs:754-878 | once a repair is written and reread at the same time with Manhattan unchanged, the entry is a hit that needs no repair, of class AllEqual or TwemcacheDiffers as the lookup's answer agrees or not |
| `ShadowCheck.Compare` | safety-label-source/dragonfly.rs:674-752 | the fills and the hits of a pass, in order: due refreshes, budgeted rereads of misses, nothing for failures; hits only when checks are on |
| `ShadowCheck.CompareFillsIff` | safety-label-source/dragonfly.rs:694-741 | the fills of a compare are exactly the due refreshes of its hits and the rereads of its misses that the budget admits at their positions |
| `ShadowCheck.EveryHitIsCompared` | safety-label-source/dragonfly.rs:709-716 | every post read as a hit is among the hits to sample from, with its entry and answer |
| `ShadowCheck.CompareFillsAreJustified` | safety-label-source/dragonfly.rs:694-741 | every fill of a compare is one the protocol allows its task |
| `ShadowCheck.RepairsAreJustified` | safety-label-source/dragonfly.rs:802-815 | so is every repair, for hits that were read as hits |
| `ShadowCheck.CompareHitsWereSeen` | safety-label-source/dragonfly.rs:694-716 | every hit of a compare was read as that entry, and is a match exactly when filtered entry and filtered answer agree |
| `ShadowCheck.ShadowPass` | safety-label-source/dragonfly.rs:655-752 | a whole pass, compare, sampling and check, queues only fills the protocol allows its task; the fills and repairs are those of the passes, and none when the compare runs out of time |
| `ShadowCheck.MismatchesAreCheckedFirst` | safety-label-source/dragonfly.rs:839-852 | only hits are sampled, and a match is checked only if it is in the slice and every mismatch is checked |
| `ShadowCheck.AllAreChecked` | safety-label-source/dragonfly.rs:839-852 | while the budget lasts, exactly the mismatches and the matches of the slice are checked |
| `ShadowCheck.CheckedUntilRefused` | safety-label-source/dragonfly.rs:839-852 | checking goes on until the budget refuses |
| `RemoteSource.Scan` | safety-label-source/remote.rs:527-602 | each id asked for has a result, which is Manhattan's reply at its last position: exactly those items with their labels, or that they do not decode, or that there was no reply there |
| `RemoteSource.ScanIsTotal` | safety-label-source/remote.rs:527-602 | the ids of the result are exactly the ids asked for, whatever fails |
| `RemoteSource.ScanLastWins` | safety-label-source/remote.rs:541-577 | a repeated id has Manhattan's reply at its last position |
| `RemoteSource.TwemcacheGet` | safety-label-source/remote.rs:454-512 | an outcome for each id; one bad key makes all fall through |
| `RemoteSource.ReadTwemcache` | safety-label-source/remote.rs:238-271 | each unserved id is either answered as Twemcache said or sent to Manhattan, by what Twemcache said of it |
| `RemoteSource.SettleReads` | safety-label-source/remote.rs:288-321 | each served id is settled by its read at its first position: answered, sent to Manhattan or unavailable; the refreshes queued are exactly those due, one per id |
| `RemoteSource.TakeScans` | safety-label-source/remote.rs:329-344 | in any order of the scan results: answers overwritten by Manhattan's, and a fill with its items for exactly the missed ids it answered |
| `RemoteSource.AskManhattan` | safety-label-source/remote.rs:329-344 | the answers complete for exactly the served and unserved ids, with the caches' decisions intact |
| `RemoteSource.Get` | safety-label-source/remote.rs:205-347 | for every id list, duplicates included, every ramp and every failure: the keys of the answer are exactly the requested ids, each answered by its cache or by Manhattan as it must be, and the fills are exactly the due refreshes and answered misses, at most one per id |
| `RemoteSource.ManhattanAnswersByPosition` | safety-label-source/remote.rs:329-344 | of the reply of `Get`: a post sent to Manhattan is answered with the labels of the reply at its own position, or fails as that reply does, and the fill of a missed post carries the items of that reply |
| `RemoteSource.ServedByRead` | safety-label-source/remote.rs:295-309 | a post whose label-cache read is a hit is answered with the entry's labels and not sent to Manhattan; one whose read is a miss is sent |
| `RemoteSource.LookupFillsIff` | safety-label-source/remote.rs:288-344 | the fills are exactly the due rereads of hits and, for misses, the items Manhattan answered, under a generation begun at the lookup's time |
| `RemoteSource.TwemcacheAnswersByPost` | safety-label-source/remote.rs:238-271 | a post of Twemcache is answered with the labels found, or with none where Twemcache knows there are none, and sent to Manhattan in every other case |
| `RemoteSource.RampIsMonotone` | safety-label-source/dragonfly.rs:108-124 | no post is served at ramp 0, every post at 10 000, a post from the setting above its bucket on, and whoever is served stays so at every higher setting |
| `RemoteSource.ServedPartInOrder` | safety-label-source/remote.rs:214-220 | each cache's part of the posts is in the order of the request |
| `RemoteSource.OutageLadder` | safety-label-source/remote.rs:310-320 | an id whose label-cache read fails goes to Manhattan exactly when it has no stale answer and the budget admits its first occurrence, otherwise it is unavailable; it queues no fill |
| `RemoteSource.NoOutage` | safety-label-source/remote.rs:291-344 | a served id whose read does not fail is never answered as unavailable |
| `RemoteSource.LookupIsATask` | safety-label-source/remote.rs:291-347 | the fills and answers of a lookup are ones the protocol allows a task that read and scanned so |
| `SafetyLabelSource.HotKeyCache.GetLocal` | safety-label-source/source.rs:178-202 | position by position, on the cache as it is at that turn: a live entry is a hit with its labels, anything else a miss, and the expired ids are exactly those with an entry past its time |
| `SafetyLabelSource.HotKeyCache.BackfillLocal` | safety-label-source/source.rs:204-233 | remote answers override local ones; the cache is what caching the good answers of posts not dated in the future makes of it, turn by turn among other tasks; exactly the label-cache failures are returned |
| `SafetyLabelSource.OnlyGoodAnswersAreCached` | safety-label-source/source.rs:217-229 | whatever holds of the old entries, of other tasks' and of good answers with the full TTL holds of every entry: no error is ever cached |
| `SafetyLabelSource.QuietBackfill` | safety-label-source/source.rs:211-231 | with no other task about, the cache gets exactly the good answers |
| `SafetyLabelSource.HotKeyCache.ServeOutage` | safety-label-source/source.rs:161-176 | an unavailable id is answered from the entry it has at its turn, however old; nothing else changes |
| `SafetyLabelSource.HotKeyCache.DropExpired` | safety-label-source/source.rs:138-152 | every good answer keeps each of its live labels, unchanged, and no other; failures stay |
| `SafetyLabelSource.HotKeyCache.Get` | safety-label-source/source.rs:119-155 | the pass, the remote lookup of the misses, the answers and the cache afterwards, whatever other tasks do to the cache at any turn |
| `SafetyLabelSource.EveryPostIsAnswered` | safety-label-source/source.rs:119-155 | the ids answered are exactly the requested ones, each with every live label, unchanged, and no other, of the answer taken from the pass, from the remote lookup, or from the entry still there in an outage; or with that answer's failure |
| `SafetyLabelSource.AnswersAreLive` | safety-label-source/source.rs:138-152 | no label returned has expired |
| `SafetyLabelSource.ExpiredEntryServesOutage` | safety-label-source/source.rs:161-202 | an id whose entry had expired at one of its positions and whose label-cache read fails is not sent to Manhattan, queues no fill, and is answered from the entry it still has, or fails if that is gone |
| `ChunkGroups.StandaloneIndex` | visibility-filtering-client/vf_client.rs:451-456 | each tweet requested on its own, with its first such index |
| `ChunkGroups.QuotedOuters` | visibility-filtering-client/vf_client.rs:457-461 | exactly the tweets requested on their own and quoted by an entry |
| `ChunkGroups.GroupByOuter` | visibility-filtering-client/vf_client.rs:462-481 | every index is in one group at one place; an outer leads its group, its quotes are in it, any other entry is alone |
| `ChunkPacking.CutGroup` | visibility-filtering-client/vf_client.rs:484-494 | a group over 50 becomes chunks that each hold its outer, spread over at least two, with all quotes once |
| `ChunkPacking.PackGroups` | visibility-filtering-client/vf_client.rs:482-500 | the chunks hold exactly the groups' entries, 1 to 50 distinct ones each, each entry with its group's head, only heads of cut groups in several, no two neighbours fitting one RPC |
| `ChunkPlanner.PlanEvaluateChunks` | visibility-filtering-client/vf_client.rs:443-501 | for every request: 1 to 50 distinct indices per chunk, every index covered, every quote in a chunk with its outer's first standalone index, an index in several chunks exactly when it is the outer of a group over 50, neighbours holding over 50 |
| `ChunkPlanner.GroupIsOuterAndQuotes` | visibility-filtering-client/vf_client.rs:462-481 | the group of an outer tweet has one entry more than the tweet has quotes in the request |
| `ChunkPlanner.RpcCountBound` | visibility-filtering-client/vf_client.rs:482-499 | the number of RPCs is at most 2 * (entries sent) / 51 + 1, oversized groups included |
| `EvaluateTweets.DecodeAll` | visibility-filtering-client/vf_client.rs:511-515 | all outcomes decode in order, or none is returned because one does not |
| `EvaluateTweets.Reassemble` | visibility-filtering-client/vf_client.rs:375-385 | every slot is filled, so the `expect` cannot fire, and result i is the answer at the first occurrence of i in the plan |
| `EvaluateTweets.EvaluateTweets` | visibility-filtering-client/vf_client.rs:335-386 | the call succeeds exactly when it is in time and every chunk's RPC, count and decoding are good; then result i is what the first chunk carrying tweet i answered for it |
| `EvaluateTweets.CallEvaluatesEachTweet` | visibility-filtering-client/vf_client.rs:335-386 | of the call's own result: if the service evaluates entries in order, the batched call is evaluation tweet by tweet, and it fails only by its deadline or a failed RPC |
| `OutcomePairing.Pair` | visibility-filtering/evaluate_tweets.rs:105-131 | one answer per entry in order, never another key's evaluation, each outcome used once in order, unpaired counted |
| `OutcomePairing.GreedyKeepsUp` | visibility-filtering/evaluate_tweets.rs:105-117 | the greedy pass is never behind any way of embedding the outcome keys in the judged keys |
| `OutcomePairing.AllConsumedIffSubsequence` | visibility-filtering/evaluate_tweets.rs:105-117 | every outcome is consumed if and only if the outcome keys, repeats allowed, are a subsequence of the judged keys |
| `CachedHydrator.UpdateAll` | candidate-pipeline/hydrator.rs:64-70 | each candidate is updated in place by its own good result, the others stay |
| `CachedHydrator.Cached.Gather` | candidate-pipeline/hydrator.rs:159-188 | each candidate is answered from itself or from the store as it is at its turn, or, exactly when neither has it, listed as missing; the result list is empty exactly while all are missing |
| `CachedHydrator.Cached.HydrateForStage` | candidate-pipeline/hydrator.rs:153-243 | one result per candidate in order on every path, fast path included: the client's own answer for exactly the missing ones, the stored value otherwise; the missing-result error never arises; the good answers are stored, whatever other tasks do meanwhile; a wrong count fails all and stores nothing |
| `CachedHydrator.Scatter` | candidate-pipeline/hydrator.rs:224-234 | each answer lands at its candidate's index, the other slots stay |
| `CachedHydrator.CachedRefinesDirect` | candidate-pipeline/hydrator.rs:153-243 | with a client that answers by cache key and faithful cache values, a call keeps the store faithful and updates every candidate not already hydrated as an uncached client call would, and one that is by its own values |
| `CachedHydrator.GoodAnswersAreStored` | candidate-pipeline/hydrator.rs:213-233 | with no other task about, the store gets the last good answer for each key and keeps the rest |
| `CachedHydrator.HydrateAll` | candidate-pipeline/hydrator.rs:153-243 | over any sequence of calls from an empty store, with any evictions and any faithful inserts of other tasks, the outputs are those of direct hydration |
| `StableSort.Sort` | candidate-pipeline/selector.rs:70-78 | the output is in score order and has, for each score, the input's candidates in input order |
| `StableSort.StableSortIsUnique` | candidate-pipeline/selector.rs:70-78 | there is one such output, whatever the algorithm |
| `StableSort.StableSortPlaces` | candidate-pipeline/selector.rs:70-78 | the output is a rearrangement of the input positions in which ties keep their order |
| `Pipeline.RunHydrators` | candidate-pipeline/candidate_pipeline.rs:331-348 | all enabled hydrators see the candidates as they came in; their results are applied one after another |
| `Pipeline.HydratorUpdatesEach` | candidate-pipeline/candidate_pipeline.rs:331-348 | an enabled hydrator that gave one result per candidate as they came in updates each candidate that has a good one, and nothing else happens |
| `Pipeline.HydrationKeeps` | candidate-pipeline/candidate_pipeline.rs:331-348 | what no hydrator's update changes, position by position, no hydration changes |
| `Pipeline.RunScorers` | candidate-pipeline/candidate_pipeline.rs:403-414 | each enabled scorer sees what the ones before it left |
| `Pipeline.ScorerUpdatesEach` | candidate-pipeline/candidate_pipeline.rs:403-414 | likewise for a scorer, on what the scorers before it left |
| `Pipeline.ScoringKeeps` | candidate-pipeline/candidate_pipeline.rs:403-414 | what no scorer's update changes, no scoring changes |
| `Pipeline.Partition` | candidate-pipeline/filter.rs:15-26 | kept are the candidates at exactly the places where the predicate, asked once each with memory of the earlier ones, said so, and removed those at exactly the other places, both in input order |
| `Pipeline.RunFilters` | candidate-pipeline/candidate_pipeline.rs:379-397 | the filters in turn, removed candidates accumulated in order |
| `Pipeline.SurvivorsWereAccepted` | candidate-pipeline/candidate_pipeline.rs:379-397 | every candidate that passes the filters was accepted by each enabled one at its place in what that filter was given |
| `Pipeline.RemovedWasRefused` | candidate-pipeline/candidate_pipeline.rs:379-397 | every candidate removed was refused by one enabled filter |
| `Pipeline.RefusedIsRemoved` | candidate-pipeline/candidate_pipeline.rs:379-397 | whatever an enabled filter refuses is removed |
| `Pipeline.DisabledFilterChangesNothing` | candidate-pipeline/candidate_pipeline.rs:387-394 | the first filter is given all candidates, and a disabled one changes nothing |
| `Pipeline.FiltersDecide` | candidate-pipeline/candidate_pipeline.rs:136-151 | of a whole run: what reaches the scorers was accepted by every enabled filter, and what is selected by every enabled post-selection filter |
| `Pipeline.FilteredWereRefused` | candidate-pipeline/candidate_pipeline.rs:136-152 | of a whole run: every candidate reported as filtered was refused by an enabled filter, before or after selection |
| `Pipeline.CountFiltered` | candidate-pipeline/candidate_pipeline.rs:379-397 | for every identity, kept plus removed is what came in |
| `Pipeline.FilteredEmbeds` | candidate-pipeline/candidate_pipeline.rs:379-397 | the kept candidates are in the order they came in, and in the order any of the filters was given them |
| `Pipeline.CountSorted` | candidate-pipeline/selector.rs:70-78 | sorting neither loses nor repeats an identity |
| `Pipeline.FetchCandidates` | candidate-pipeline/candidate_pipeline.rs:291-306 | the candidates of the enabled sources that answered, in order |
| `Pipeline.SourceIsCollected` | candidate-pipeline/candidate_pipeline.rs:299-302 | each enabled source that answered has its candidates among those collected, together and in order |
| `Pipeline.CollectedHasSource` | candidate-pipeline/candidate_pipeline.rs:299-302 | and nothing else is collected |
| `Pipeline.SelectStage` | candidate-pipeline/selector.rs:52-66 | selected and non-selected together are the ranking, cut at the limit; unranked and uncut when disabled |
| `Pipeline.ExecuteStages` | candidate-pipeline/candidate_pipeline.rs:126-179 | the result is the outcome of the stages for a ranking the selector may make, and never over the result size |
| `Pipeline.Conservation` | candidate-pipeline/candidate_pipeline.rs:126-179 | with updates that keep identity, each identity is retrieved as often as fetched, and as often as filtered plus selected plus non-selected |
| `Pipeline.NothingIsHeldBack` | candidate-pipeline/candidate_pipeline.rs:141-158 | the selector passes on as many as its size lets it, and a result that is not full has everything the post-selection filters kept |
| `Pipeline.SelectedInOrder` | candidate-pipeline/candidate_pipeline.rs:141-158 | with the selector enabled and post-selection hydration that keeps scores, the final list is in non-increasing score order with ties in the order that reached the selector, and nothing non-selected or truncated outscores a selected candidate |
| `Pipeline.TiesInFetchOrder` | candidate-pipeline/candidate_pipeline.rs:126-179 | ties are even in the order the sources gave |
| `Pipeline.UnrankedInFetchOrder` | candidate-pipeline/candidate_pipeline.rs:416-431 | with the selector disabled the final list keeps the order the sources gave |

## Left out

- gRPC, TLS, discovery, configuration and command lines: input and output only.
- Metrics, logs, label diffs, replay logging and pipeline summaries: no effect on answers.
- Twemcache warming, the shadow pass's trigger and permit, and the removal of duplicate shadowed ids: easy members; the shadow pass itself is modelled for any list of answers.
- Rate limiters and the bucket hash: arbitrary answers; their rates are not modelled.
- Thrift decoding and the rule engine behind the visibility endpoints: arbitrary functions.
- Protobuf groups (wire types 3 and 4): a message holding one is taken as undecodable, where the decoder would skip an unknown group; nothing the writer stores holds one.
- `NaN` and infinite scores: scores are real numbers; label equality is reflexive.
- `Wire.FieldsRoundTrip`: states one direction only, since several byte strings may decode to one message.
- `StableSort.Sort`: inserts candidate by candidate where the library merges runs; `StableSortIsUnique` makes the results the same.
- `FillQueue.LabelCacheWriter.Write`: the answers of the scan and of the stores are one per id, which is general because no batch repeats an id.
- `TwoTierStaleness.EveryAnswerIsYoung`: is stated for a process whose hot-key cache holds answers of the label cache and Manhattan only; Twemcache answers have no age to bound.
- `Servers.ServerGoesThroughRun`: all servers share one clock, and each follows the protocol; a server of another version that stores other entries is outside it.
- `Pipeline.ExecuteStages`: models the default `finalize` and the default selector; query hydration and side effects are outside it.
- Error messages other than the kinds of failure that callers branch on.
- Python training code, home-mixer, Thunder and the popular-authors jobs.
