/** One lookup past the hot-key cache: Twemcache or the label cache, chosen per
    post by a ramp bucket, then Manhattan for what they do not answer. */
module RemoteSource {
  import opened Basics
  import opened Labels
  import opened LabelEntry
  import opened LabelCacheProtocol

  datatype FailureKind = ManhattanFetch | ManhattanDecode | LabelCacheUnavailable

  type Lookup = Result<LabelMap, FailureKind>

  datatype TwemcacheOutcome = TwemcacheHit(labels: LabelMap) | TwemcacheNotFound | TwemcacheMiss | FallThrough

  /** What a Twemcache value decodes to. */
  datatype CachedLabels = CachedFound(labels: LabelMap) | CachedNotFound | CachedMiss

  datatype ManhattanScan = ManhattanScan(items: seq<RawSafetyLabel>, labels: LabelMap)

  type Scans = map<TweetId, Result<ManhattanScan, FailureKind>>

  /** Manhattan's reply to a batch: a failure, or results by position, some of
      which may be failures and some of which may be missing at the end. */
  datatype Fetch = FetchFailed | Fetched(results: seq<Option<seq<RawSafetyLabel>>>)

  /** Everything outside the lookup: foreign decoders, the bucket hash, and what
      the caches, the outage budget and Manhattan answer during this lookup.
      `admits(i)` is the budget's answer for the i-th post read from the label cache. */
  datatype World = World(
    decoders: Decoders,
    cachedValue: Bytes -> Option<CachedLabels>,
    bucket: TweetId -> nat,
    hasLabelCache: bool,
    twemcache: TweetId -> CacheReply,
    labelCache: TweetId -> CacheReply,
    admits: nat -> bool,
    fetch: seq<TweetId> -> Fetch)

  /** The post at `i` does not occur before `i`. */
  ghost predicate IsFirst(ids: seq<TweetId>, i: nat) {
    i < |ids| && ids[i] !in ids[..i]
  }

  /** The post at `i` does not occur after `i`. */
  ghost predicate IsLast(ids: seq<TweetId>, i: nat) {
    i < |ids| && ids[i] !in ids[i + 1..]
  }

  // ---- Manhattan ----

  function ScanAt(decoders: Decoders, fetch: Fetch, i: nat): Result<ManhattanScan, FailureKind> {
    if fetch.FetchFailed? || i >= |fetch.results| || fetch.results[i].None? then Err(ManhattanFetch) else
    var items := fetch.results[i].value;
    match LabelsOf(decoders, items)
    case Some(labels) => Ok(ManhattanScan(items, labels))
    case None => Err(ManhattanDecode)
  }

  method DecodeFetched(decoders: Decoders, fetch: Fetch, i: nat) returns (result: Result<ManhattanScan, FailureKind>)
    ensures result == ScanAt(decoders, fetch, i)
  {
    if fetch.FetchFailed? || i >= |fetch.results| || fetch.results[i].None? {
      return Err(ManhattanFetch);
    }
    var labels := RawLabels(decoders, fetch.results[i].value);
    return if labels.Some? then Ok(ManhattanScan(fetch.results[i].value, labels.value)) else Err(ManhattanDecode);
  }

  /** The results of a scan: each position's result, later positions winning. */
  ghost function ScanMap(decoders: Decoders, ids: seq<TweetId>, fetch: Fetch):
    Scans
  {
    if ids == [] then map[] else
    var n := |ids| - 1;
    ScanMap(decoders, ids[..n], fetch)[ids[n] := ScanAt(decoders, fetch, n)]
  }

  /** Manhattan's reply at position `i` is `result`: its own items and their labels, or
      that they do not decode, or that there was no reply. */
  ghost predicate IsReplyAt(decoders: Decoders, fetch: Fetch, i: nat, result: Result<ManhattanScan, FailureKind>) {
    match fetch
    case FetchFailed => result == Err(ManhattanFetch)
    case Fetched(replies) =>
      && (i >= |replies| ==> result == Err(ManhattanFetch))
      && (i < |replies| && replies[i] == None ==> result == Err(ManhattanFetch))
      && (forall items :: i < |replies| && replies[i] == Some(items) ==>
            match LabelsOf(decoders, items)
            case Some(labels) => result == Ok(ManhattanScan(items, labels))
            case None => result == Err(ManhattanDecode))
  }

  method Scan(decoders: Decoders, ids: seq<TweetId>, fetch: Fetch)
    returns (results: Scans)
    ensures results == ScanMap(decoders, ids, fetch)
    ensures results.Keys == set id | id in ids
    ensures forall i :: 0 <= i < |ids| && IsLast(ids, i) ==> IsReplyAt(decoders, fetch, i, results[ids[i]])
  {
    results := map[];
    for i := 0 to |ids|
      invariant results == ScanMap(decoders, ids[..i], fetch)
    {
      var result := DecodeFetched(decoders, fetch, i);
      assert ids[..i + 1][..i] == ids[..i];
      results := results[ids[i] := result];
    }
    assert ids[..|ids|] == ids;
    ScanIsTotal(decoders, ids, fetch);
    forall i | 0 <= i < |ids| && IsLast(ids, i) ensures IsReplyAt(decoders, fetch, i, results[ids[i]]) {
      ScanLastWins(decoders, ids, fetch, i);
    }
  }

  /** Every post asked for gets a result, and only those. */
  lemma {:induction false} ScanIsTotal(decoders: Decoders, ids: seq<TweetId>, fetch: Fetch)
    ensures ScanMap(decoders, ids, fetch).Keys == set id | id in ids
  {
    if ids != [] {
      var n := |ids| - 1;
      ScanIsTotal(decoders, ids[..n], fetch);
      assert ids == ids[..n] + [ids[n]];
    }
  }

  /** A post's result is Manhattan's reply at its last position. */
  lemma {:induction false} ScanLastWins(decoders: Decoders, ids: seq<TweetId>, fetch: Fetch, i: nat)
    requires IsLast(ids, i)
    ensures ids[i] in ScanMap(decoders, ids, fetch)
    ensures IsReplyAt(decoders, fetch, i, ScanMap(decoders, ids, fetch)[ids[i]])
  {
    var n := |ids| - 1;
    if i < n {
      assert ids[i + 1..] == ids[..n][i + 1..] + [ids[n]];
      ScanLastWins(decoders, ids[..n], fetch, i);
    }
  }

  // ---- Twemcache ----

  function TwemcacheOutcomeOf(world: World, id: TweetId): TwemcacheOutcome {
    match world.twemcache(id)
    case Stored(bytes) =>
      (match world.cachedValue(bytes)
       case Some(CachedFound(labels)) => TwemcacheHit(labels)
       case Some(CachedNotFound) => TwemcacheNotFound
       case Some(CachedMiss) => TwemcacheMiss
       case None => FallThrough)
    case Absent => TwemcacheMiss
    case _ => FallThrough
  }

  /** Twemcache's answer for a post, unless a key of the batch is bad. */
  function TwemcacheAnswer(world: World, ids: seq<TweetId>, id: TweetId): TwemcacheOutcome {
    if exists i :: 0 <= i < |ids| && world.twemcache(ids[i]).BadKey? then FallThrough
    else TwemcacheOutcomeOf(world, id)
  }

  method TwemcacheGet(world: World, ids: seq<TweetId>) returns (outcomes: map<TweetId, TwemcacheOutcome>)
    ensures outcomes == map id | id in ids :: TwemcacheAnswer(world, ids, id)
  {
    outcomes := map[];
    var badKey := exists i :: 0 <= i < |ids| && world.twemcache(ids[i]).BadKey?;
    for i := 0 to |ids|
      invariant outcomes == map id | id in ids[..i] :: TwemcacheAnswer(world, ids, id)
    {
      outcomes := outcomes[ids[i] := if badKey then FallThrough else TwemcacheOutcomeOf(world, ids[i])];
    }
  }

  /** The answer Twemcache gives for a post, if it gives one. */
  function FromTwemcache(outcome: TwemcacheOutcome): Option<Lookup> {
    match outcome
    case TwemcacheHit(labels) => Some(Ok(labels))
    case TwemcacheNotFound => Some(Ok(map[]))
    case TwemcacheMiss => None
    case FallThrough => None
  }

  method ReadTwemcache(world: World, ids: seq<TweetId>)
    returns (results: map<TweetId, Lookup>, fallback: seq<TweetId>)
    ensures results.Keys + (set id | id in fallback) == set id | id in ids
    ensures forall id :: id in results ==> FromTwemcache(TwemcacheAnswer(world, ids, id)) == Some(results[id])
    ensures forall id :: id in fallback ==> FromTwemcache(TwemcacheAnswer(world, ids, id)) == None
  {
    var outcomes := TwemcacheGet(world, ids);
    ghost var all := outcomes;
    results, fallback := map[], [];
    for i := 0 to |ids|
      invariant forall k :: 0 <= k < i ==> ids[k] in results || ids[k] in fallback
      invariant forall id :: id in results || id in fallback ==> id in all
      invariant forall id :: id in all && id !in results && id !in fallback ==>
                  id in outcomes && outcomes[id] == all[id]
      invariant forall id :: id in results ==> FromTwemcache(all[id]) == Some(results[id])
      invariant forall id :: id in fallback ==> FromTwemcache(all[id]) == None
    {
      var id := ids[i];
      if id !in results && id !in fallback {
        var outcome := outcomes[id];
        outcomes := outcomes - {id};
        match outcome {
          case TwemcacheHit(labels) => results := results[id := Ok(labels)];
          case TwemcacheNotFound => results := results[id := Ok(map[])];
          case TwemcacheMiss => fallback := fallback + [id];
          case FallThrough => fallback := fallback + [id];
        }
      }
    }
  }

  // ---- Label cache ----

  function ReadOf(world: World, context: ReadContext, id: TweetId): EntryRead {
    ReadEntry(world.decoders, world.labelCache(id), context)
  }

  /** A post whose read fails, at its first position, is kept from Manhattan when
      a stale answer is at hand or when the outage budget refuses it. */
  predicate Unavailable(admits: nat -> bool, stale: set<TweetId>, id: TweetId, position: nat) {
    id in stale || !admits(position)
  }

  /** What the label cache makes of the post first read at position `i`. */
  ghost predicate Settled(admits: nat -> bool, stale: set<TweetId>, id: TweetId, read: EntryRead, i: nat,
                          results: map<TweetId, Lookup>, fallback: seq<TweetId>)
  {
    match read
    case Hit(envelope, _) => id !in fallback && id in results && results[id] == Ok(IntoLabels(envelope))
    case Miss => id in fallback
    case Failed =>
      if Unavailable(admits, stale, id, i) then
        id !in fallback && id in results && results[id] == Err(LabelCacheUnavailable)
      else id in fallback
  }

  /** The refresh of a hit that is due. */
  ghost predicate IsRefresh(read: EntryRead, job: FillJob) {
    read.Hit? && read.refresh == Some(job.fill) && job.labels.Reread?
  }

  /** What the pass over the reads has built so far. */
  datatype Progress = Progress(
    results: map<TweetId, Lookup>,
    fallback: seq<TweetId>,
    fillIds: set<TweetId>,
    fills: seq<FillJob>)

  /** One turn of the pass: the read at position `i`. */
  function SettleOne(admits: nat -> bool, stale: set<TweetId>, p: Progress, i: nat, id: TweetId, entry: EntryRead):
    Progress
  {
    if id in p.results || id in p.fillIds then p else
    match entry
    case Hit(envelope, refresh) =>
      p.(fills := if refresh.Some? then p.fills + [FillJob(id, refresh.value, Reread)] else p.fills,
         results := p.results[id := Ok(IntoLabels(envelope))])
    case Miss => p.(fillIds := p.fillIds + {id}, fallback := p.fallback + [id])
    case Failed =>
      if id !in stale && admits(i) then p.(fallback := p.fallback + [id])
      else p.(results := p.results[id := Err(LabelCacheUnavailable)])
  }

  ghost predicate ProgressOk(p: Progress, done: seq<TweetId>, read: TweetId -> EntryRead) {
    && (forall id :: id in done <==> id in p.results || id in p.fallback)
    && (forall id :: id in p.fillIds <==> id in done && read(id).Miss?)
    && (forall id :: id in done && read(id).Hit? ==> id in p.results)
    && (forall job :: job in p.fills <==> job.tweetId in done && IsRefresh(read(job.tweetId), job))
    && Distinct(JobIds(p.fills))
  }

  lemma SettleOneKeepsProgress(admits: nat -> bool, stale: set<TweetId>, p: Progress, done: seq<TweetId>,
                               id: TweetId, read: TweetId -> EntryRead)
    requires ProgressOk(p, done, read)
    ensures ProgressOk(SettleOne(admits, stale, p, |done|, id, read(id)), done + [id], read)
  {
    var p' := SettleOne(admits, stale, p, |done|, id, read(id));
    if p'.fills != p.fills {
      var job := p'.fills[|p.fills|];
      assert p'.fills == p.fills + [job] && id !in done;
      forall other | other in p.fills ensures other.tweetId != id {}
    }
    forall job ensures job in p'.fills <==> job.tweetId in done + [id] && IsRefresh(read(job.tweetId), job) {
      if job.tweetId == id && IsRefresh(read(id), job) {
        assert job in p'.fills;
      }
    }
  }

  /** The pass has settled the posts among `done`, each at its first position. */
  ghost predicate AllSettled(admits: nat -> bool, stale: set<TweetId>, p: Progress, done: seq<TweetId>,
                             read: TweetId -> EntryRead)
  {
    forall k: nat :: IsFirst(done, k) ==> Settled(admits, stale, done[k], read(done[k]), k, p.results, p.fallback)
  }

  lemma SettleOneKeepsSettled(admits: nat -> bool, stale: set<TweetId>, p: Progress, done: seq<TweetId>,
                              id: TweetId, read: TweetId -> EntryRead, k: nat)
    requires ProgressOk(p, done, read) && AllSettled(admits, stale, p, done, read)
    requires IsFirst(done + [id], k)
    ensures var p' := SettleOne(admits, stale, p, |done|, id, read(id));
            Settled(admits, stale, (done + [id])[k], read((done + [id])[k]), k, p'.results, p'.fallback)
  {
    if k < |done| {
      assert (done + [id])[..k] == done[..k];
      assert IsFirst(done, k);
    } else {
      assert (done + [id])[..k] == done;
    }
  }

  lemma SettleStep(admits: nat -> bool, stale: set<TweetId>, p: Progress, done: seq<TweetId>,
                   id: TweetId, read: TweetId -> EntryRead)
    requires ProgressOk(p, done, read) && AllSettled(admits, stale, p, done, read)
    ensures var p' := SettleOne(admits, stale, p, |done|, id, read(id));
            ProgressOk(p', done + [id], read) && AllSettled(admits, stale, p', done + [id], read)
  {
    SettleOneKeepsProgress(admits, stale, p, done, id, read);
    var p' := SettleOne(admits, stale, p, |done|, id, read(id));
    var done' := done + [id];
    forall k: nat | IsFirst(done', k)
      ensures Settled(admits, stale, done'[k], read(done'[k]), k, p'.results, p'.fallback)
    {
      SettleOneKeepsSettled(admits, stale, p, done, id, read, k);
    }
  }

  /** Settles each post by what was read for it; `read` is what any read of a
      post in this lookup shows. */
  method SettleReads(admits: nat -> bool, stale: set<TweetId>, seen: seq<(TweetId, EntryRead)>,
                     ghost ids: seq<TweetId>, ghost read: TweetId -> EntryRead)
    returns (p: Progress)
    requires |seen| == |ids| && forall i :: 0 <= i < |ids| ==> seen[i] == (ids[i], read(ids[i]))
    ensures ProgressOk(p, ids, read) && AllSettled(admits, stale, p, ids, read)
  {
    p := Progress(map[], [], {}, []);
    for i := 0 to |seen|
      invariant ProgressOk(p, ids[..i], read) && AllSettled(admits, stale, p, ids[..i], read)
    {
      var (id, entry) := seen[i];
      SettleStep(admits, stale, p, ids[..i], id, read);
      assert ids[..i + 1] == ids[..i] + [id];
      p := SettleOne(admits, stale, p, i, id, entry);
    }
    assert ids[..|ids|] == ids;
  }

  // ---- The lookup ----

  predicate Serves(world: World, context: ReadContext, id: TweetId) {
    world.hasLabelCache && context.switches.serveBuckets > 0 && world.bucket(id) < context.switches.serveBuckets
  }

  /** The posts that the label cache serves, or those it does not, in order. */
  function ServedPart(world: World, context: ReadContext, ids: seq<TweetId>, served: bool): seq<TweetId> {
    if ids == [] then []
    else if Serves(world, context, ids[0]) == served then [ids[0]] + ServedPart(world, context, ids[1..], served)
    else ServedPart(world, context, ids[1..], served)
  }

  lemma {:induction false} ServedPartMembers(world: World, context: ReadContext, ids: seq<TweetId>, served: bool)
    ensures forall id :: id in ServedPart(world, context, ids, served) <==>
                         id in ids && Serves(world, context, id) == served
  {
    if ids != [] {
      ServedPartMembers(world, context, ids[1..], served);
    }
  }

  /** They are in the order of the request. */
  lemma {:induction false} ServedPartInOrder(world: World, context: ReadContext, ids: seq<TweetId>, served: bool)
    returns (places: seq<nat>)
    ensures Embeds(ServedPart(world, context, ids, served), ids, places)
  {
    if ids == [] {
      places := [];
    } else {
      var rest := ServedPartInOrder(world, context, ids[1..], served);
      ShiftEmbeds(ServedPart(world, context, ids[1..], served), ids[1..], rest, ids[0]);
      assert ids == [ids[0]] + ids[1..];
      places := if Serves(world, context, ids[0]) == served then [0] + Shifted(rest) else Shifted(rest);
    }
  }

  function FromScan(scan: Result<ManhattanScan, FailureKind>): Lookup {
    match scan
    case Ok(found) => Ok(found.labels)
    case Err(failure) => Err(failure)
  }

  /** The refreshes, and a fill for each missed post among `done` that was found. */
  ghost predicate FillsTaken(fills: seq<FillJob>, refreshes: seq<FillJob>, missed: set<TweetId>,
                             scans: Scans, done: set<TweetId>,
                             context: ReadContext)
  {
    && Distinct(JobIds(fills))
    && (forall job :: job in refreshes ==> job in fills)
    && (forall id :: id in missed && id in done && id in scans && scans[id].Ok? ==>
        MissFill(id, scans, context) in fills)
    && (forall job :: job in fills ==>
          job in refreshes ||
          (job.tweetId in missed && job.tweetId in done && job.tweetId in scans && scans[job.tweetId].Ok? &&
           job == MissFill(job.tweetId, scans, context)))
  }

  ghost function MissFill(id: TweetId, scans: Scans, context: ReadContext):
    FillJob
    requires id in scans && scans[id].Ok?
  {
    FillJob(id, NewFill(context.nowMs), Scanned(scans[id].value.items))
  }

  lemma TakeOneFill(fills: seq<FillJob>, refreshes: seq<FillJob>, missed: set<TweetId>,
                    scans: Scans, done: set<TweetId>,
                    context: ReadContext, id: TweetId)
    requires FillsTaken(fills, refreshes, missed, scans, done, context)
    requires forall job :: job in refreshes ==> job.tweetId !in missed
    requires id in scans && id !in done
    ensures var fills' := if scans[id].Ok? && id in missed then fills + [MissFill(id, scans, context)] else fills;
            FillsTaken(fills', refreshes, missed, scans, done + {id}, context)
  {
    if scans[id].Ok? && id in missed {
      assert forall job :: job in fills ==> job.tweetId != id;
    }
  }

  /** The answers, with Manhattan's results for the posts among `done`. */
  ghost predicate ResultsTaken(results: map<TweetId, Lookup>, before: map<TweetId, Lookup>,
                               scans: Scans, done: set<TweetId>)
    requires done <= scans.Keys
  {
    && results.Keys == before.Keys + done
    && (forall id :: id in done ==> results[id] == FromScan(scans[id]))
    && (forall id :: id in before && id !in done ==> results[id] == before[id])
  }

  lemma TakeOneResult(results: map<TweetId, Lookup>, before: map<TweetId, Lookup>,
                      scans: Scans, done: set<TweetId>, id: TweetId)
    requires done <= scans.Keys && ResultsTaken(results, before, scans, done) && id in scans
    ensures ResultsTaken(results[id := FromScan(scans[id])], before, scans, done + {id})
  {
  }

  /** Takes Manhattan's results into the answers, with a fill for each missed
      post that was found, in any order. */
  method TakeScans(scans: Scans, context: ReadContext,
                   before: map<TweetId, Lookup>, refreshes: seq<FillJob>, missed: set<TweetId>)
    returns (results: map<TweetId, Lookup>, fills: seq<FillJob>)
    requires Distinct(JobIds(refreshes)) && forall job :: job in refreshes ==> job.tweetId !in missed
    ensures ResultsTaken(results, before, scans, scans.Keys)
    ensures FillsTaken(fills, refreshes, missed, scans, scans.Keys, context)
  {
    results, fills := before, refreshes;
    var todo := scans.Keys;
    ghost var done := {};
    while todo != {}
      invariant done <= scans.Keys && todo == scans.Keys - done
      invariant ResultsTaken(results, before, scans, done)
      invariant FillsTaken(fills, refreshes, missed, scans, done, context)
      decreases todo
    {
      var id :| id in todo;
      TakeOneFill(fills, refreshes, missed, scans, done, context, id);
      TakeOneResult(results, before, scans, done, id);
      done := done + {id};
      todo := todo - {id};
      if scans[id].Ok? && id in missed {
        fills := fills + [FillJob(id, NewFill(context.nowMs), Scanned(scans[id].value.items))];
      }
      results := results[id := FromScan(scans[id])];
    }
    assert done == scans.Keys;
  }

  /** What a lookup is shown: the posts each cache serves and what that cache shows
      for them, the budget's answers, and the posts with a stale answer at hand. */
  datatype View = View(
    context: ReadContext,
    unserved: seq<TweetId>,
    outcome: TweetId -> TwemcacheOutcome,
    served: seq<TweetId>,
    read: TweetId -> EntryRead,
    admits: nat -> bool,
    stale: set<TweetId>)

  /** What a lookup answers, which posts it sent to Manhattan, what it queues. */
  datatype Reply = Reply(results: map<TweetId, Lookup>, fallback: seq<TweetId>, fills: seq<FillJob>)

  /** What Twemcache makes of a post it serves. */
  ghost predicate TwemcacheSettled(outcome: TwemcacheOutcome, id: TweetId, results: map<TweetId, Lookup>,
                                   fallback: seq<TweetId>)
  {
    match FromTwemcache(outcome)
    case Some(answer) => id !in fallback && id in results && results[id] == answer
    case None => id in fallback
  }

  /** The fills of a lookup: the refresh each hit has due, and Manhattan's items
      for each missed post it answered; none for a read that failed. */
  ghost predicate IsFill(read: EntryRead, scans: Scans, context: ReadContext, job: FillJob) {
    || IsRefresh(read, job)
    || (read.Miss? && job.tweetId in scans && scans[job.tweetId].Ok? && job == MissFill(job.tweetId, scans, context))
  }

  /** The fills taken are those of the served posts, by what was read for each. */
  lemma FillsOfLookup(fills: seq<FillJob>, p: Progress, served: seq<TweetId>, read: TweetId -> EntryRead,
                      scans: Scans, context: ReadContext)
    requires ProgressOk(p, served, read)
    requires FillsTaken(fills, p.fills, p.fillIds, scans, scans.Keys, context)
    ensures forall job :: job in fills <==> job.tweetId in served && IsFill(read(job.tweetId), scans, context, job)
  {
    forall job ensures job in fills <==> job.tweetId in served && IsFill(read(job.tweetId), scans, context, job) {
      if job.tweetId in p.fillIds && job.tweetId in scans && scans[job.tweetId].Ok? {
        assert MissFill(job.tweetId, scans, context) in fills;
      }
    }
  }

  /** Settling by a cache survives Manhattan's results, which concern only the
      posts sent to it. */
  lemma SettledSurvives(admits: nat -> bool, stale: set<TweetId>, p: Progress, served: seq<TweetId>,
                        read: TweetId -> EntryRead, results: map<TweetId, Lookup>, fallback: seq<TweetId>)
    requires AllSettled(admits, stale, p, served, read)
    requires forall id :: id in served ==> (id in fallback <==> id in p.fallback)
    requires forall id :: id in p.results && id !in fallback ==> id in results && results[id] == p.results[id]
    ensures AllSettled(admits, stale, p.(results := results, fallback := fallback), served, read)
  {
    forall i: nat | IsFirst(served, i)
      ensures Settled(admits, stale, served[i], read(served[i]), i, results, fallback)
    {
      assert Settled(admits, stale, served[i], read(served[i]), i, p.results, p.fallback);
    }
  }

  /** What the two caches and Manhattan together make of a lookup. */
  ghost predicate LookedUp(v: View, scans: Scans, r: Reply) {
    && (forall id :: id in v.unserved ==> TwemcacheSettled(v.outcome(id), id, r.results, r.fallback))
    && AllSettled(v.admits, v.stale, Progress(r.results, r.fallback, {}, []), v.served, v.read)
    && (forall id :: id in r.fallback ==> id in r.results && id in scans && r.results[id] == FromScan(scans[id]))
    && (forall job :: job in r.fills <==> job.tweetId in v.served && IsFill(v.read(job.tweetId), scans, v.context, job))
    && Distinct(JobIds(r.fills))
  }

  /** Asks Manhattan for what the caches left open, and completes the answers. */
  method AskManhattan(decoders: Decoders, fetch: seq<TweetId> -> Fetch, context: ReadContext,
                      twemcacheResults: map<TweetId, Lookup>, twemcacheFallback: seq<TweetId>, p: Progress,
                      ghost v: View)
    returns (r: Reply)
    requires v.context == context && forall id :: id in v.unserved ==> id !in v.served
    requires forall id :: id in v.unserved <==> id in twemcacheResults || id in twemcacheFallback
    requires forall id :: id in v.unserved ==> TwemcacheSettled(v.outcome(id), id, twemcacheResults, twemcacheFallback)
    requires ProgressOk(p, v.served, v.read) && AllSettled(v.admits, v.stale, p, v.served, v.read)
    ensures forall id :: id in r.results <==> id in v.unserved || id in v.served
    ensures LookedUp(v, ScanMap(decoders, r.fallback, fetch(r.fallback)), r)
  {
    var fallback := twemcacheFallback + p.fallback;
    var scans := Scan(decoders, fallback, fetch(fallback));
    var results, fills := TakeScans(scans, context, twemcacheResults + p.results, p.fills, p.fillIds);
    r := Reply(results, fallback, fills);
    Assembled(twemcacheResults, twemcacheFallback, p, v, scans, r);
  }

  /** What the caches settled and what Manhattan answered make a whole lookup. */
  lemma {:induction false} Assembled(twemcacheResults: map<TweetId, Lookup>, twemcacheFallback: seq<TweetId>,
                                     p: Progress,
                                     v: View, scans: Scans, r: Reply)
    requires forall id :: id in v.unserved ==> id !in v.served
    requires forall id :: id in v.unserved <==> id in twemcacheResults || id in twemcacheFallback
    requires forall id :: id in v.unserved ==> TwemcacheSettled(v.outcome(id), id, twemcacheResults, twemcacheFallback)
    requires ProgressOk(p, v.served, v.read) && AllSettled(v.admits, v.stale, p, v.served, v.read)
    requires r.fallback == twemcacheFallback + p.fallback && scans.Keys == set id | id in r.fallback
    requires ResultsTaken(r.results, twemcacheResults + p.results, scans, scans.Keys)
    requires FillsTaken(r.fills, p.fills, p.fillIds, scans, scans.Keys, v.context)
    ensures forall id :: id in r.results <==> id in v.unserved || id in v.served
    ensures LookedUp(v, scans, r)
  {
    FillsOfLookup(r.fills, p, v.served, v.read, scans, v.context);
    SettledSurvives(v.admits, v.stale, p, v.served, v.read, r.results, r.fallback);
  }

  /** Manhattan's results for the posts sent to it. */
  ghost function ScansOf(world: World, fallback: seq<TweetId>): Scans {
    ScanMap(world.decoders, fallback, world.fetch(fallback))
  }

  /** What this world shows a lookup. */
  ghost function ViewOf(world: World, context: ReadContext, ids: seq<TweetId>, stale: set<TweetId>): View {
    var unserved := ServedPart(world, context, ids, false);
    View(context, unserved, (id: TweetId) => TwemcacheAnswer(world, unserved, id),
         ServedPart(world, context, ids, true), (id: TweetId) => ReadOf(world, context, id), world.admits, stale)
  }

  /** Answers every requested post and no other, whatever fails: from its cache,
      or from Manhattan when that cache does not answer, or, when the label cache
      fails, from Manhattan only if the post has no stale answer and the outage
      budget admits it where it is first read. Queues one fill per post at most. */
  method Get(world: World, context: ReadContext, ids: seq<TweetId>, stale: set<TweetId>) returns (r: Reply)
    ensures forall id :: id in r.results <==> id in ids
    ensures LookedUp(ViewOf(world, context, ids, stale), ScansOf(world, r.fallback), r)
  {
    var unserved, served := ServedPart(world, context, ids, false), ServedPart(world, context, ids, true);
    ServedPartMembers(world, context, ids, false);
    ServedPartMembers(world, context, ids, true);
    ghost var v := ViewOf(world, context, ids, stale);
    var twemcacheResults, twemcacheFallback := ReadTwemcache(world, unserved);
    var seen := Read(world.decoders, served, world.labelCache, context);
    var p := SettleReads(world.admits, stale, seen, served, v.read);
    r := AskManhattan(world.decoders, world.fetch, context, twemcacheResults, twemcacheFallback, p, v);
  }

  // ---- What a lookup promises ----

  lemma {:induction false} FirstPosition(ids: seq<TweetId>, id: TweetId) returns (i: nat)
    requires id in ids
    ensures IsFirst(ids, i) && ids[i] == id
  {
    var n := |ids| - 1;
    if id in ids[..n] {
      i := FirstPosition(ids[..n], id);
      assert ids[..n][..i] == ids[..i];
    } else {
      i := n;
    }
  }

  lemma {:induction false} LastPosition(ids: seq<TweetId>, id: TweetId) returns (i: nat)
    requires id in ids
    ensures IsLast(ids, i) && ids[i] == id
  {
    var n := |ids| - 1;
    if ids[n] == id {
      i := n;
    } else {
      i := LastPosition(ids[..n], id);
      assert ids[i + 1..] == ids[..n][i + 1..] + [ids[n]];
    }
  }

  /** What a lookup makes of Manhattan's reply to a post: it answers with the labels of
      the reply at the post's own position, or fails as that reply does; and the fill of
      a missed post carries the items of that reply. */
  ghost predicate AnswersReply(decoders: Decoders, fetch: Fetch, v: View, r: Reply, i: nat)
    requires i < |r.fallback|
  {
    var id := r.fallback[i];
    id in r.results &&
    if fetch.FetchFailed? || i >= |fetch.results| || fetch.results[i].None?
    then r.results[id] == Err(ManhattanFetch) else
    var items := fetch.results[i].value;
    match LabelsOf(decoders, items)
    case None => r.results[id] == Err(ManhattanDecode)
    case Some(labels) =>
      && r.results[id] == Ok(labels)
      && (id in v.served && v.read(id).Miss? ==>
            FillJob(id, Fill(v.context.nowMs, 0), Scanned(items)) in r.fills)
  }

  lemma ManhattanAnswersByPosition(decoders: Decoders, fetch: Fetch, v: View, r: Reply, i: nat)
    requires LookedUp(v, ScanMap(decoders, r.fallback, fetch), r) && IsLast(r.fallback, i)
    ensures AnswersReply(decoders, fetch, v, r, i)
  {
    ScanLastWins(decoders, r.fallback, fetch, i);
    var id, scans := r.fallback[i], ScanMap(decoders, r.fallback, fetch);
    assert id in r.fallback;
    if scans[id].Ok? && id in v.served && v.read(id).Miss? {
      assert IsFill(v.read(id), scans, v.context, MissFill(id, scans, v.context));
    }
  }

  /** A post whose label-cache read is a hit is answered with the labels of the entry and
      not sent to Manhattan; a post whose read is a miss is sent there. */
  lemma ServedByRead(v: View, scans: Scans, r: Reply, id: TweetId)
    requires LookedUp(v, scans, r) && id in v.served
    ensures v.read(id).Miss? ==> id in r.fallback
    ensures v.read(id).Hit? ==>
              && id !in r.fallback && id in r.results && r.results[id].Ok?
              && r.results[id].value == (match v.read(id).envelope.status
                                         case Found(labels) => labels
                                         case NotFound => map[])
  {
    var i := FirstPosition(v.served, id);
    assert Settled(v.admits, v.stale, id, v.read(id), i, r.results, r.fallback);
  }

  /** The items that Manhattan answered for a post at its last position, if they decode. */
  ghost predicate AnsweredWith(decoders: Decoders, fetch: Fetch, ids: seq<TweetId>, id: TweetId,
                               items: seq<RawSafetyLabel>)
  {
    exists i: nat :: IsLast(ids, i) && ids[i] == id && fetch.Fetched? && i < |fetch.results| &&
                     fetch.results[i] == Some(items) && LabelsOf(decoders, items).Some?
  }

  /** The fills a lookup queues are exactly these: for a served post that was a hit with a
      refresh due, the reread under that generation; for one that was a miss, the items
      that Manhattan answered, under a generation begun at the lookup's time. */
  lemma LookupFillsIff(decoders: Decoders, fetch: Fetch, v: View, r: Reply, job: FillJob)
    requires LookedUp(v, ScanMap(decoders, r.fallback, fetch), r)
    ensures job in r.fills <==>
            job.tweetId in v.served &&
            match v.read(job.tweetId)
            case Hit(_, refresh) => job.labels.Reread? && refresh == Some(job.fill)
            case Miss =>
              job.labels.Scanned? && job.fill == Fill(v.context.nowMs, 0) &&
              AnsweredWith(decoders, fetch, r.fallback, job.tweetId, job.labels.items)
            case Failed => false
  {
    var id, scans := job.tweetId, ScanMap(decoders, r.fallback, fetch);
    assert job in r.fills <==> id in v.served && IsFill(v.read(id), scans, v.context, job);
    if id in v.served && v.read(id).Miss? {
      ServedByRead(v, scans, r, id);
      var i := LastPosition(r.fallback, id);
      ScanLastWins(decoders, r.fallback, fetch, i);
      forall j: nat | IsLast(r.fallback, j) && r.fallback[j] == id ensures j == i {
        OneLastPosition(r.fallback, i, j);
      }
    }
  }

  lemma OneLastPosition(ids: seq<TweetId>, i: nat, j: nat)
    requires IsLast(ids, i) && IsLast(ids, j) && ids[i] == ids[j]
    ensures i == j
  {
    assert forall k :: i < k < |ids| ==> ids[i + 1..][k - i - 1] == ids[k];
    assert forall k :: j < k < |ids| ==> ids[j + 1..][k - j - 1] == ids[k];
  }

  /** The outage ladder: a post whose label-cache read fails is not sent to
      Manhattan when it has a stale answer; otherwise it is sent exactly when
      the budget admits it where it is first read, and fails when refused. The
      failed read queues no fill. */
  lemma OutageLadder(v: View, scans: Scans, r: Reply, id: TweetId) returns (first: nat)
    requires LookedUp(v, scans, r)
    requires id in v.served && v.read(id).Failed?
    ensures IsFirst(v.served, first) && v.served[first] == id
    ensures id in r.fallback <==> id !in v.stale && v.admits(first)
    ensures id in r.results
    ensures id !in r.fallback ==> r.results[id] == Err(LabelCacheUnavailable)
    ensures id in r.fallback ==> id in scans && r.results[id] == FromScan(scans[id])
    ensures forall job :: job in r.fills ==> job.tweetId != id
  {
    first := FirstPosition(v.served, id);
    assert Settled(v.admits, v.stale, id, v.read(id), first, r.results, r.fallback);
  }

  lemma {:induction false} ScannedLabels(decoders: Decoders, ids: seq<TweetId>, fetch: Fetch, id: TweetId)
    requires id in ScanMap(decoders, ids, fetch)
    ensures var scan := ScanMap(decoders, ids, fetch)[id];
            && (scan.Ok? ==> LabelsOf(decoders, scan.value.items) == Some(scan.value.labels))
            && scan != Err(LabelCacheUnavailable)
  {
    var n := |ids| - 1;
    if id != ids[n] {
      ScannedLabels(decoders, ids[..n], fetch, id);
    }
  }

  /** Twemcache's answers, post by post: what it found, or nothing when it knows there is
      nothing; anything else, and everything when some key of the batch is bad, goes to
      Manhattan. */
  lemma TwemcacheAnswersByPost(world: World, context: ReadContext, ids: seq<TweetId>, stale: set<TweetId>, r: Reply,
                               id: TweetId)
    requires LookedUp(ViewOf(world, context, ids, stale), ScansOf(world, r.fallback), r)
    requires id in ids && !Serves(world, context, id)
    ensures var found := TwemcacheFinds(world, ServedPart(world, context, ids, false), id);
            if found.Some? then id !in r.fallback && id in r.results && r.results[id] == Ok(found.value)
            else id in r.fallback
  {
    ServedPartMembers(world, context, ids, false);
    var v, unserved := ViewOf(world, context, ids, stale), ServedPart(world, context, ids, false);
    assert id in v.unserved && v.outcome(id) == TwemcacheAnswer(world, unserved, id);
    assert TwemcacheSettled(v.outcome(id), id, r.results, r.fallback);
    TwemcacheFindsOutcome(world, unserved, id);
  }

  /** The labels that Twemcache has for a post: those of a value it found, none for a value
      that says there are none; and no answer for anything else. */
  ghost function TwemcacheFinds(world: World, ids: seq<TweetId>, id: TweetId): Option<LabelMap> {
    var reply := world.twemcache(id);
    if (exists i :: 0 <= i < |ids| && world.twemcache(ids[i]).BadKey?) || !reply.Stored? then None else
    match world.cachedValue(reply.bytes)
    case Some(CachedFound(labels)) => Some(labels)
    case Some(CachedNotFound) => Some(map[])
    case Some(CachedMiss) => None
    case None => None
  }

  lemma TwemcacheFindsOutcome(world: World, ids: seq<TweetId>, id: TweetId)
    ensures var found := TwemcacheFinds(world, ids, id);
            FromTwemcache(TwemcacheAnswer(world, ids, id)) == if found.Some? then Some(Ok(found.value)) else None
  {
  }

  const RAMP_BUCKETS: nat := 10_000

  /** The ramp: none is served at 0, all at 10 000, and whoever is served at some setting
      is served at every higher one. */
  lemma RampIsMonotone(world: World, context: ReadContext, more: ReadContext, id: TweetId)
    requires world.bucket(id) < RAMP_BUCKETS
    ensures Serves(world, context, id) ==> world.hasLabelCache
    ensures context.switches.serveBuckets == 0 ==> !Serves(world, context, id)
    ensures world.hasLabelCache && context.switches.serveBuckets >= RAMP_BUCKETS ==> Serves(world, context, id)
    ensures Serves(world, context, id) && context.switches.serveBuckets <= more.switches.serveBuckets ==>
              Serves(world, more, id)
    ensures world.hasLabelCache && context.switches.serveBuckets == world.bucket(id) ==> !Serves(world, context, id)
    ensures world.hasLabelCache && context.switches.serveBuckets == world.bucket(id) + 1 ==> Serves(world, context, id)
  {
  }

  /** A served post whose read does not fail is never answered as unavailable. */
  lemma NoOutage(decoders: Decoders, fetch: Fetch, v: View, r: Reply, id: TweetId)
    requires LookedUp(v, ScanMap(decoders, r.fallback, fetch), r)
    requires id in v.served && !v.read(id).Failed?
    ensures id in r.results && r.results[id] != Err(LabelCacheUnavailable)
  {
    var i := FirstPosition(v.served, id);
    assert Settled(v.admits, v.stale, id, v.read(id), i, r.results, r.fallback);
    if id in r.fallback {
      ScannedLabels(decoders, r.fallback, fetch, id);
    }
  }

  /** The task of the protocol that a lookup is: what it read, what it scanned. */
  ghost function TaskOf(v: View, scans: Scans): Task {
    Task(v.context, map id | id in v.served :: v.read(id),
         map id | id in scans && scans[id].Ok? :: scans[id].value.items, [], [])
  }

  /** A lookup is a task of the protocol: it queues only fills the protocol lets
      that task queue, and answers each post of the label cache as the task
      may, so what is proved of every run holds of it. */
  lemma LookupIsATask(decoders: Decoders, fetch: Fetch, v: View, r: Reply)
    requires LookedUp(v, ScanMap(decoders, r.fallback, fetch), r)
    ensures var task := TaskOf(v, ScanMap(decoders, r.fallback, fetch));
            && (forall job :: job in r.fills ==> Justified(job, v.context, task.seen, task.scans))
            && (forall id :: id in v.served && id in r.results && r.results[id].Ok? ==>
                  Answers(decoders, task, id, r.results[id].value))
  {
    var scans := ScanMap(decoders, r.fallback, fetch);
    var task := TaskOf(v, scans);
    forall id | id in v.served && id in r.results && r.results[id].Ok?
      ensures Answers(decoders, task, id, r.results[id].value)
    {
      var i := FirstPosition(v.served, id);
      assert Settled(v.admits, v.stale, id, v.read(id), i, r.results, r.fallback);
      if id in r.fallback {
        ScannedLabels(decoders, r.fallback, fetch, id);
      }
    }
  }
}
