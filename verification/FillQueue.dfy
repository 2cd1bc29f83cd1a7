/** The code that fills the label cache: `fill`, which marks and queues jobs,
    and the writer that drains the queue. Each method runs here on its own, over
    the same `Admit` and `BuildWrites` as the steps of `LabelCacheProtocol`;
    `FillRuns` shows that each call is a run of those steps. */
module FillQueue {
  import opened Basics
  import opened Labels
  import opened LabelEntry
  import opened LabelCacheProtocol
  import opened PendingFills

  ghost function IdSet(jobs: seq<FillJob>): set<TweetId> {
    set id | id in JobIds(jobs)
  }

  /** Stores the writes for which `stores` answers true, in order. */
  ghost function Stores(cache: map<TweetId, Bytes>, writes: seq<(TweetId, Bytes)>, stores: TweetId -> bool):
    map<TweetId, Bytes>
  {
    if writes == [] then cache else
    var before := Stores(cache, writes[..|writes| - 1], stores);
    var (id, bytes) := writes[|writes| - 1];
    if stores(id) then before[id := bytes] else before
  }

  /** How many of the writes are stored. */
  ghost function StoredCount(writes: seq<(TweetId, Bytes)>, stores: TweetId -> bool): nat {
    if writes == [] then 0 else
    StoredCount(writes[..|writes| - 1], stores) + if stores(writes[|writes| - 1].0) then 1 else 0
  }

  /** The writes of jobs taken one by one: the scanned items of a job, or what
      Manhattan answers for it. */
  ghost function WritesOf(jobs: seq<FillJob>, scan: ScanAnswers): seq<(TweetId, Bytes)> {
    if jobs == [] then [] else WriteOf(jobs[0], scan) + WritesOf(jobs[1..], scan)
  }

  ghost function WriteOf(job: FillJob, scan: ScanAnswers): seq<(TweetId, Bytes)> {
    var items := if job.labels.Scanned? then Some(job.labels.items) else scan(job.tweetId);
    if items.Some? then [(job.tweetId, EncodeEntry(job.fill, items.value))] else []
  }

  ghost function Flatten(batches: seq<seq<FillJob>>): seq<FillJob> {
    if batches == [] then [] else Flatten(batches[..|batches| - 1]) + batches[|batches| - 1]
  }

  type ScanAnswers = TweetId -> Option<seq<RawSafetyLabel>>

  /** The cache once batches have been written one after another, each with what
      Manhattan and the cache answer then. */
  ghost function StoredBatches(cache: map<TweetId, Bytes>, batches: seq<seq<FillJob>>, scans: nat -> ScanAnswers,
                               stores: nat -> (TweetId -> bool)): map<TweetId, Bytes>
  {
    if batches == [] then cache else
    var n := |batches| - 1;
    Stores(StoredBatches(cache, batches[..n], scans, stores), WritesOf(batches[n], scans(n)), stores(n))
  }

  ghost predicate AreBatches(batches: seq<seq<FillJob>>) {
    forall n :: 0 <= n < |batches| ==> 1 <= |batches[n]| <= FILL_BATCH_KEYS && Distinct(JobIds(batches[n]))
  }

  /** The jobs are of `fill` calls made before the first `rounds` batches. */
  ghost predicate Arrived(arrivals: nat -> seq<seq<FillJob>>, rounds: nat, accepted: seq<FillJob>) {
    forall job :: job in accepted ==> exists r: nat :: r < rounds && IsGiven(arrivals(r), job)
  }

  ghost predicate IsGiven(calls: seq<seq<FillJob>>, job: FillJob) {
    exists c: nat :: c < |calls| && job in calls[c]
  }

  /** Every job that was given has its id among those taken. */
  ghost predicate AllTaken(arrivals: nat -> seq<seq<FillJob>>, rounds: nat, taken: seq<FillJob>) {
    forall r: nat, job :: r < rounds && IsGiven(arrivals(r), job) ==> job.tweetId in JobIds(taken)
  }

  ghost function CallSize(calls: seq<seq<FillJob>>): nat {
    if calls == [] then 0 else CallSize(calls[..|calls| - 1]) + |calls[|calls| - 1]|
  }

  /** How many jobs are given before the first `rounds` batches. */
  ghost function Given(arrivals: nat -> seq<seq<FillJob>>, rounds: nat): nat {
    if rounds == 0 then 0 else Given(arrivals, rounds - 1) + CallSize(arrivals(rounds - 1))
  }

  ghost function NewPlaces(jobs: seq<FillJob>, pending: set<TweetId>): set<nat> {
    set i: nat | i < |jobs| && IsNew(jobs, pending, i)
  }

  /** What a `fill` call does with its jobs: all but the new ones are duplicates; the new
      ones are dropped only where the queue is full; and if none is dropped, every id is
      pending and every new job has been queued. */
  ghost predicate TakesNew(jobs: seq<FillJob>, pending: set<TweetId>, before: seq<FillJob>, queue: seq<FillJob>,
                           marked: set<TweetId>, deduped: nat, dropped: nat)
  {
    && deduped + |NewPlaces(jobs, pending)| == |jobs|
    && (dropped == 0 <==> |before| + |NewPlaces(jobs, pending)| <= FILL_QUEUE_KEYS)
    && (dropped > 0 ==> |queue| == FILL_QUEUE_KEYS)
    && (dropped == 0 ==> forall i :: 0 <= i < |jobs| ==> jobs[i].tweetId in marked)
    && (dropped == 0 ==> forall i: nat :: IsNew(jobs, pending, i) ==> jobs[i] in queue)
  }

  /** The items of the reread jobs that Manhattan answered with labels that decode. */
  ghost function Answered(jobs: seq<FillJob>, scan: ScanAnswers):
    map<TweetId, seq<RawSafetyLabel>>
  {
    map id | id in RereadIds(jobs) && scan(id).Some? :: scan(id).value
  }

  /** Scans Manhattan for the jobs that are to be reread. */
  method ScanRereads(jobs: seq<FillJob>, scan: ScanAnswers)
    returns (found: map<TweetId, seq<RawSafetyLabel>>)
    ensures found == Answered(jobs, scan)
  {
    found := map[];
    for i := 0 to |jobs|
      invariant found == Answered(jobs[..i], scan)
    {
      var id := jobs[i].tweetId;
      AnsweredGrows(jobs, i, scan);
      if jobs[i].labels.Reread? && scan(id).Some? {
        found := found[id := scan(id).value];
      }
    }
    assert jobs[..|jobs|] == jobs;
  }

  /** Encodes the entries of a batch, taking each scan out as it is used. */
  method EncodeBatch(jobs: seq<FillJob>, scans: map<TweetId, seq<RawSafetyLabel>>)
    returns (writes: seq<(TweetId, Bytes)>)
    ensures writes == BuildWrites(jobs, scans) && |writes| <= |jobs|
  {
    writes := [];
    var found: map<TweetId, seq<RawSafetyLabel>> := scans;
    for i := 0 to |jobs|
      invariant BuildWrites(jobs, scans) == writes + BuildWrites(jobs[i..], found)
      invariant |writes| <= i
    {
      var FillJob(id, fill, labels) := jobs[i];
      assert jobs[i..][1..] == jobs[i + 1..];
      if labels.Scanned? {
        BuildsHead(writes, (id, EncodeEntry(fill, labels.items)), BuildWrites(jobs[i + 1..], found));
        writes := writes + [(id, EncodeEntry(fill, labels.items))];
      } else if id in found {
        BuildsHead(writes, (id, EncodeEntry(fill, found[id])), BuildWrites(jobs[i + 1..], found - {id}));
        writes := writes + [(id, EncodeEntry(fill, found[id]))];
        found := found - {id};
      }
    }
  }

  lemma BuildsHead(writes: seq<(TweetId, Bytes)>, write: (TweetId, Bytes), rest: seq<(TweetId, Bytes)>)
    ensures writes + ([write] + rest) == writes + [write] + rest
  {
  }

  class LabelCacheWriter {
    var pending: set<TweetId>
    var queue: seq<FillJob>
    var cache: map<TweetId, Bytes>

    constructor ()
      ensures pending == {} && queue == [] && cache == map[]
    {
      pending, queue, cache := {}, [], map[];
    }

    /** The ids marked pending are those of the queued jobs, one job each. */
    ghost predicate Valid()
      reads this
    {
      pending == IdSet(queue) && Distinct(JobIds(queue)) && |queue| <= FILL_QUEUE_KEYS
    }

    /** Under the lock: marks the ids of the jobs and keeps those that were new. */
    method Mark(jobs: seq<FillJob>) returns (unsent: seq<FillJob>)
      modifies this`pending
      ensures (unsent, pending) == Admit(jobs, old(pending))
    {
      ghost var (admitted, marked) := Admit(jobs, pending);
      unsent := [];
      for i := 0 to |jobs|
        invariant admitted == unsent + Admit(jobs[i..], pending).0
        invariant marked == Admit(jobs[i..], pending).1
      {
        var job := jobs[i];
        assert jobs[i..][1..] == jobs[i + 1..];
        if job.tweetId !in pending {
          pending := pending + {job.tweetId};
          unsent := unsent + [job];
        }
      }
      assert unsent == admitted;
    }

    /** Sends jobs while the queue has room; the rest are dropped. */
    method SendAll(unsent: seq<FillJob>) returns (dropped: seq<TweetId>)
      requires |queue| <= FILL_QUEUE_KEYS
      modifies this`queue
      ensures var sent := Min(|unsent|, FILL_QUEUE_KEYS - |old(queue)|);
              queue == old(queue) + unsent[..sent] && dropped == JobIds(unsent[sent..])
    {
      dropped := [];
      ghost var room := FILL_QUEUE_KEYS - |queue|;
      for i := 0 to |unsent|
        invariant queue == old(queue) + unsent[..Min(i, room)]
        invariant dropped == JobIds(unsent[Min(i, room)..i])
      {
        if |queue| < FILL_QUEUE_KEYS {
          assert unsent[..i + 1] == unsent[..i] + [unsent[i]];
          queue := queue + [unsent[i]];
        } else {
          assert unsent[room..i + 1] == unsent[room..i] + [unsent[i]];
          dropped := dropped + [unsent[i].tweetId];
        }
      }
    }

    method UnmarkAll(ids: seq<TweetId>)
      modifies this`pending
      ensures pending == old(pending) - (set id | id in ids)
    {
      for i := 0 to |ids|
        invariant pending == old(pending) - (set id | id in ids[..i])
      {
        pending := pending - {ids[i]};
      }
    }

    /** Queues, in order, the jobs whose id was not pending, as far as the queue
        has room, and leaves exactly the queued ones newly marked. */
    method Fill(jobs: seq<FillJob>) returns (enqueued: nat, deduped: nat, droppedCount: nat)
      requires |queue| <= FILL_QUEUE_KEYS
      modifies this`pending, this`queue
      ensures enqueued == Min(|Admit(jobs, old(pending)).0|, FILL_QUEUE_KEYS - |old(queue)|)
      ensures queue == old(queue) + Admit(jobs, old(pending)).0[..enqueued]
      ensures pending == old(pending) + IdSet(Admit(jobs, old(pending)).0[..enqueued])
      ensures enqueued + deduped + droppedCount == |jobs|
      ensures TakesNew(jobs, old(pending), old(queue), queue, pending, deduped, droppedCount)
      ensures old(Valid()) ==> Valid()
    {
      var unsent := Mark(jobs);
      var dropped := SendAll(unsent);
      UnmarkAll(dropped);
      enqueued, deduped, droppedCount := |unsent| - |dropped|, |jobs| - |unsent|, |dropped|;
      AdmittedAreNew(jobs, old(pending));
      DropTail(old(pending), unsent, enqueued);
      FillsAllNew(jobs, old(pending), old(queue));
      if old(Valid()) {
        assert JobIds(unsent[..enqueued]) == JobIds(unsent)[..enqueued];
        QueueStaysDistinct(old(queue), unsent[..enqueued], old(pending));
      }
    }

    /** Stores the writes whose store succeeds. */
    method StoreAll(writes: seq<(TweetId, Bytes)>, stores: TweetId -> bool) returns (written: nat)
      modifies this`cache
      ensures cache == Stores(old(cache), writes, stores) && written == StoredCount(writes, stores) <= |writes|
    {
      written := 0;
      for i := 0 to |writes|
        invariant cache == Stores(old(cache), writes[..i], stores)
        invariant written == StoredCount(writes[..i], stores) <= i
      {
        var (id, bytes) := writes[i];
        assert writes[..i + 1][..i] == writes[..i];
        if stores(id) {
          cache := cache[id := bytes];
          written := written + 1;
        }
      }
      assert writes[..|writes|] == writes;
    }

    /** Writes a batch: each scanned job, and each reread job that Manhattan
        answers, becomes one entry; every id of the batch is then unmarked,
        whether its write was made or not. */
    method Write(jobs: seq<FillJob>, scan: ScanAnswers, stores: TweetId -> bool)
      returns (written: nat, failed: nat)
      modifies this`pending, this`cache
      ensures var writes := BuildWrites(jobs, Answered(jobs, scan));
              cache == Stores(old(cache), writes, stores) && written == StoredCount(writes, stores)
      ensures pending == old(pending) - IdSet(jobs)
      ensures written + failed == |jobs|
    {
      var found := ScanRereads(jobs, scan);
      var writes := EncodeBatch(jobs, found);
      written := StoreAll(writes, stores);
      failed := |jobs| - written;
      UnmarkAll(JobIds(jobs));
    }

    /** A `fill` call, with the jobs it gets queued. */
    method FillCall(jobs: seq<FillJob>) returns (more: seq<FillJob>, dropped: nat)
      requires Valid()
      modifies this`pending, this`queue
      ensures Valid() && queue == old(queue) + more && |more| <= |jobs|
      ensures forall job :: job in more ==> job in jobs
      ensures dropped == 0 ==> forall job :: job in jobs ==> job.tweetId in JobIds(queue)
      ensures dropped > 0 ==> |queue| == FILL_QUEUE_KEYS < |old(queue)| + |jobs|
    {
      var enqueued, deduped;
      enqueued, deduped, dropped := Fill(jobs);
      more := queue[|queue| - enqueued..];
      assert more == Admit(jobs, old(pending)).0[..enqueued];
      forall job | job in more ensures job in jobs {
        AdmittedIsGiven(jobs, old(pending), job);
      }
      forall job | dropped == 0 && job in jobs ensures job.tweetId in JobIds(queue) {
        var i :| 0 <= i < |jobs| && jobs[i] == job;
        assert jobs[i].tweetId in pending;
      }
    }

    /** The `fill` calls of other tasks, one after another. */
    method FillAll(calls: seq<seq<FillJob>>) returns (accepted: seq<FillJob>, dropped: nat)
      requires Valid()
      modifies this`pending, this`queue
      ensures Valid() && queue == old(queue) + accepted && |accepted| <= CallSize(calls)
      ensures forall job :: job in accepted ==> IsGiven(calls, job)
      ensures dropped == 0 ==> forall job :: IsGiven(calls, job) ==> job.tweetId in JobIds(queue)
      ensures dropped > 0 ==> FILL_QUEUE_KEYS < |old(queue)| + CallSize(calls)
    {
      accepted, dropped := [], 0;
      for c := 0 to |calls|
        invariant Valid() && queue == old(queue) + accepted && |accepted| <= CallSize(calls[..c])
        invariant forall job :: job in accepted ==> IsGiven(calls, job)
        invariant dropped == 0 ==> forall job :: IsGiven(calls[..c], job) ==> job.tweetId in JobIds(queue)
        invariant dropped > 0 ==> FILL_QUEUE_KEYS < |old(queue)| + CallSize(calls[..c])
      {
        ghost var waiting := queue;
        var more, lost := FillCall(calls[c]);
        JoinThree(old(queue), accepted, more);
        NextCall(calls, c, waiting, more);
        accepted, dropped := accepted + more, dropped + lost;
      }
      assert calls[..|calls|] == calls;
    }

    /** Drains the queue in batches while other tasks go on filling it; `arrivals(r)` are
        the `fill` calls made before batch `r`, for the first `rounds` batches, and
        `scans(r)` and `stores(r)` what Manhattan and the cache answer to it. Every
        accepted job is written once, in order, and nothing else is; afterwards nothing
        is queued and nothing is pending. */
    method Drain(rounds: nat, arrivals: nat -> seq<seq<FillJob>>, scans: nat -> ScanAnswers,
                 stores: nat -> (TweetId -> bool))
      returns (batches: seq<seq<FillJob>>, accepted: seq<FillJob>, dropped: nat)
      requires Valid()
      modifies this
      ensures Valid() && queue == [] && pending == {}
      ensures Flatten(batches) == old(queue) + accepted
      ensures dropped == 0 ==> AllTaken(arrivals, rounds, Flatten(batches))
      ensures dropped > 0 ==> FILL_QUEUE_KEYS < |old(queue)| + Given(arrivals, rounds)
      ensures AreBatches(batches) && Arrived(arrivals, rounds, accepted)
      ensures cache == StoredBatches(old(cache), batches, scans, stores)
    {
      batches, accepted, dropped := [], [], 0;
      assert old(queue) + [] == Flatten([]) + old(queue);
      for round := 0 to rounds
        invariant Drained(batches, scans, stores, old(cache), old(queue) + accepted)
        invariant Arrived(arrivals, round, accepted) && |accepted| <= Given(arrivals, round)
        invariant dropped == 0 ==> AllTaken(arrivals, round, old(queue) + accepted)
        invariant dropped > 0 ==> FILL_QUEUE_KEYS < |old(queue)| + Given(arrivals, round)
      {
        var more, lost := Refill(arrivals(round), batches, scans, stores, old(cache), old(queue) + accepted);
        JoinThree(old(queue), accepted, more);
        ArrivedNext(arrivals, round, accepted, more);
        if dropped == 0 && lost == 0 {
          AllTakenNext(arrivals, round, old(queue) + accepted, more);
        }
        accepted, dropped := accepted + more, dropped + lost;
        batches := NextBatch(batches, scans, stores, old(cache), old(queue) + accepted);
      }
      batches := DrainRest(batches, scans, stores, old(cache), old(queue) + accepted);
      assert Flatten(batches) + [] == Flatten(batches);
    }

    /** Writes what is left when no more jobs come. */
    method DrainRest(before: seq<seq<FillJob>>, scans: nat -> ScanAnswers, stores: nat -> (TweetId -> bool),
                     ghost first: map<TweetId, Bytes>, ghost all: seq<FillJob>)
      returns (batches: seq<seq<FillJob>>)
      requires Drained(before, scans, stores, first, all)
      modifies this
      ensures Drained(batches, scans, stores, first, all) && queue == []
    {
      batches := before;
      while queue != []
        invariant Drained(batches, scans, stores, first, all)
        decreases |queue|
      {
        batches := NextBatch(batches, scans, stores, first, all);
      }
    }

    /** `fill` calls of other tasks between two batches. */
    method Refill(calls: seq<seq<FillJob>>, ghost batches: seq<seq<FillJob>>, ghost scans: nat -> ScanAnswers,
                  ghost stores: nat -> (TweetId -> bool), ghost first: map<TweetId, Bytes>, ghost all: seq<FillJob>)
      returns (more: seq<FillJob>, lost: nat)
      requires Drained(batches, scans, stores, first, all)
      modifies this`pending, this`queue
      ensures Drained(batches, scans, stores, first, all + more) && |more| <= CallSize(calls)
      ensures forall job :: job in more ==> IsGiven(calls, job)
      ensures lost == 0 ==> forall job :: IsGiven(calls, job) ==> job.tweetId in JobIds(all + more)
      ensures lost > 0 ==> FILL_QUEUE_KEYS < |all| + CallSize(calls)
    {
      more, lost := FillAll(calls);
      JoinThree(Flatten(batches), old(queue), more);
      assert JobIds(all + more) == JobIds(Flatten(batches)) + JobIds(queue);
      assert |all| >= |old(queue)|;
    }

    /** The jobs of `all` are written in batches or still queued, in order. */
    ghost predicate Drained(batches: seq<seq<FillJob>>, scans: nat -> ScanAnswers, stores: nat -> (TweetId -> bool),
                            first: map<TweetId, Bytes>, all: seq<FillJob>)
      reads this
    {
      && Valid() && AreBatches(batches) && Flatten(batches) + queue == all
      && cache == StoredBatches(first, batches, scans, stores)
    }

    /** Writes the next batch, if there is one. */
    method NextBatch(before: seq<seq<FillJob>>, scans: nat -> ScanAnswers, stores: nat -> (TweetId -> bool),
                     ghost first: map<TweetId, Bytes>, ghost all: seq<FillJob>)
      returns (batches: seq<seq<FillJob>>)
      requires Drained(before, scans, stores, first, all)
      modifies this
      ensures Drained(batches, scans, stores, first, all)
      ensures old(queue) != [] ==> |queue| < |old(queue)|
      ensures old(queue) == [] ==> queue == []
    {
      batches := before;
      if queue != [] {
        var jobs := TakeAndWrite(scans(|before|), stores(|before|));
        BatchesNext(first, before, jobs, scans, stores, queue, all);
        batches := before + [jobs];
      }
    }

    /** One turn of the writer. */
    method TakeAndWrite(scan: ScanAnswers, stores: TweetId -> bool) returns (jobs: seq<FillJob>)
      requires Valid() && queue != []
      modifies this
      ensures Valid() && jobs + queue == old(queue)
      ensures 1 <= |jobs| <= FILL_BATCH_KEYS && Distinct(JobIds(jobs))
      ensures cache == Stores(old(cache), WritesOf(jobs, scan), stores)
    {
      var count := Min(FILL_BATCH_KEYS, |queue|);
      jobs := queue[..count];
      assert jobs + queue[count..] == queue;
      BatchLeavesRest(jobs, queue[count..]);
      BatchIsOneByOne(jobs, scan);
      queue := queue[count..];
      var _, _ := Write(jobs, scan, stores);
    }
  }

  // ---- Lemmas ----

  /** Admitted jobs are new and all different, and exactly their ids get marked. */
  lemma AdmittedAreNew(jobs: seq<FillJob>, pending: set<TweetId>)
    ensures var (admitted, marked) := Admit(jobs, pending);
            Distinct(JobIds(admitted)) && IdSet(admitted) !! pending && marked == pending + IdSet(admitted)
  {
    var (admitted, marked) := Admit(jobs, pending);
    var ids := JobIds(admitted);
    forall id
      ensures Count(ids, id) <= 1 && (id in ids ==> id !in pending) && (id in marked <==> id in pending || id in ids)
    {
      AdmitMarks(jobs, pending, id);
      assert id in ids <==> Count(ids, id) > 0;
    }
    forall i, j | 0 <= i < j < |ids| ensures ids[i] != ids[j] {
      if ids[i] == ids[j] {
        CountAt(ids, i, j);
      }
    }
  }

  lemma DropTail(pending: set<TweetId>, jobs: seq<FillJob>, kept: nat)
    requires kept <= |jobs| && Distinct(JobIds(jobs)) && IdSet(jobs) !! pending
    ensures pending + IdSet(jobs) - IdSet(jobs[kept..]) == pending + IdSet(jobs[..kept])
  {
    assert JobIds(jobs) == JobIds(jobs[..kept]) + JobIds(jobs[kept..]);
    forall id | id in JobIds(jobs[..kept]) ensures id !in JobIds(jobs[kept..]) {
      var i :| 0 <= i < kept && JobIds(jobs[..kept])[i] == id;
      assert forall j :: kept <= j < |jobs| ==> JobIds(jobs)[i] != JobIds(jobs)[j];
    }
  }

  lemma QueueStaysDistinct(queue: seq<FillJob>, more: seq<FillJob>, pending: set<TweetId>)
    requires Distinct(JobIds(queue)) && Distinct(JobIds(more))
    requires pending == IdSet(queue) && IdSet(more) !! pending
    ensures Distinct(JobIds(queue + more)) && IdSet(queue + more) == pending + IdSet(more)
  {
    assert JobIds(queue + more) == JobIds(queue) + JobIds(more);
    assert forall i :: 0 <= i < |queue| ==> JobIds(queue)[i] in pending;
    assert forall i :: 0 <= i < |more| ==> JobIds(more)[i] in IdSet(more);
  }

  lemma BatchLeavesRest(jobs: seq<FillJob>, rest: seq<FillJob>)
    requires Distinct(JobIds(jobs + rest))
    ensures IdSet(jobs + rest) - IdSet(jobs) == IdSet(rest) && Distinct(JobIds(jobs)) && Distinct(JobIds(rest))
  {
    var ids, first, second := JobIds(jobs + rest), JobIds(jobs), JobIds(rest);
    assert ids == first + second;
    forall id | id in second ensures id !in first {
      var j :| 0 <= j < |second| && second[j] == id;
      assert ids[|first| + j] == id;
      assert forall i :: 0 <= i < |first| ==> ids[i] == first[i];
    }
    assert second == ids[|first|..];
  }

  lemma {:induction false} WritesOfConcat(a: seq<FillJob>, b: seq<FillJob>, scan: ScanAnswers)
    ensures WritesOf(a + b, scan) == WritesOf(a, scan) + WritesOf(b, scan)
  {
    if a == [] {
      assert a + b == b;
    } else {
      assert (a + b)[1..] == a[1..] + b;
      WritesOfConcat(a[1..], b, scan);
      var first, second, third := WriteOf(a[0], scan), WritesOf(a[1..], scan), WritesOf(b, scan);
      assert first + (second + third) == first + second + third;
    }
  }

  lemma {:induction false} StoresConcat(cache: map<TweetId, Bytes>, a: seq<(TweetId, Bytes)>, b: seq<(TweetId, Bytes)>,
                                        stores: TweetId -> bool)
    ensures Stores(cache, a + b, stores) == Stores(Stores(cache, a, stores), b, stores)
  {
    if b == [] {
      assert a + b == a;
    } else {
      assert (a + b)[..|a + b| - 1] == a + b[..|b| - 1];
      StoresConcat(cache, a, b[..|b| - 1], stores);
    }
  }

  /** `found` has what Manhattan answers for each reread job. */
  ghost predicate HasAnswers(jobs: seq<FillJob>, scan: ScanAnswers,
                             found: map<TweetId, seq<RawSafetyLabel>>)
  {
    forall i :: 0 <= i < |jobs| && jobs[i].labels.Reread? ==>
      var id := jobs[i].tweetId;
      (id in found <==> scan(id).Some?) && (id in found ==> found[id] == scan(id).value)
  }

  /** When no batch repeats an id, taking scans out of the results as they are
      used is the same as looking each one up. */
  lemma {:induction false} BuildIsOneByOne(jobs: seq<FillJob>, scan: ScanAnswers,
                                           found: map<TweetId, seq<RawSafetyLabel>>)
    requires Distinct(JobIds(jobs)) && HasAnswers(jobs, scan, found)
    ensures BuildWrites(jobs, found) == WritesOf(jobs, scan)
  {
    if jobs != [] {
      RestHasAnswers(jobs, scan, found);
      BuildIsOneByOne(jobs[1..], scan, found);
      BuildIsOneByOne(jobs[1..], scan, found - {jobs[0].tweetId});
      BuildsOwnWrite(jobs, scan, found);
    }
  }

  /** What the first job needs is no answer of the others. */
  lemma RestHasAnswers(jobs: seq<FillJob>, scan: ScanAnswers, found: map<TweetId, seq<RawSafetyLabel>>)
    requires jobs != [] && Distinct(JobIds(jobs)) && HasAnswers(jobs, scan, found)
    ensures Distinct(JobIds(jobs[1..]))
    ensures HasAnswers(jobs[1..], scan, found) && HasAnswers(jobs[1..], scan, found - {jobs[0].tweetId})
  {
    var id, rest := jobs[0].tweetId, jobs[1..];
    assert JobIds(rest) == JobIds(jobs)[1..];
    assert forall i :: 0 <= i < |rest| ==> rest[i] == jobs[i + 1] && JobIds(jobs)[i + 1] != id;
  }

  lemma BuildsOwnWrite(jobs: seq<FillJob>, scan: ScanAnswers, found: map<TweetId, seq<RawSafetyLabel>>)
    requires jobs != [] && HasAnswers(jobs, scan, found)
    ensures BuildWrites(jobs, found) == WriteOf(jobs[0], scan) + BuildWrites(jobs[1..], found) ||
            BuildWrites(jobs, found) == WriteOf(jobs[0], scan) + BuildWrites(jobs[1..], found - {jobs[0].tweetId})
  {
    var rest := BuildWrites(jobs[1..], found);
    assert [] + rest == rest;
  }

  lemma BatchIsOneByOne(jobs: seq<FillJob>, scan: ScanAnswers)
    requires Distinct(JobIds(jobs))
    ensures BuildWrites(jobs, Answered(jobs, scan)) == WritesOf(jobs, scan)
  {
    forall i | 0 <= i < |jobs| && jobs[i].labels.Reread?
      ensures jobs[i].tweetId in Answered(jobs, scan) <==> scan(jobs[i].tweetId).Some?
    {
      assert IsReread(jobs, jobs[i].tweetId);
      RereadIdsMembers(jobs, jobs[i].tweetId);
    }
    BuildIsOneByOne(jobs, scan, Answered(jobs, scan));
  }

  ghost function StoredPlaces(writes: seq<(TweetId, Bytes)>, stores: TweetId -> bool): set<nat> {
    set i: nat | i < |writes| && stores(writes[i].0)
  }

  /** The stores that are counted are those that succeed. */
  lemma {:induction false} StoredCountIs(writes: seq<(TweetId, Bytes)>, stores: TweetId -> bool)
    ensures StoredCount(writes, stores) == |StoredPlaces(writes, stores)|
  {
    if writes != [] {
      StoredCountIs(writes[..|writes| - 1], stores);
      StoredPlacesGrow(writes, stores);
    }
  }

  lemma StoredPlacesGrow(writes: seq<(TweetId, Bytes)>, stores: TweetId -> bool)
    requires writes != []
    ensures var n, before := |writes| - 1, StoredPlaces(writes[..|writes| - 1], stores);
            |StoredPlaces(writes, stores)| == |before| + if stores(writes[n].0) then 1 else 0
  {
    var n, before := |writes| - 1, StoredPlaces(writes[..|writes| - 1], stores);
    assert StoredPlaces(writes, stores) == if stores(writes[n].0) then before + {n} else before;
  }

  lemma {:induction false} NextCall(calls: seq<seq<FillJob>>, c: nat, queue: seq<FillJob>, more: seq<FillJob>)
    requires c < |calls|
    ensures CallSize(calls[..c + 1]) == CallSize(calls[..c]) + |calls[c]|
    ensures forall job :: IsGiven(calls[..c + 1], job) <==> IsGiven(calls[..c], job) || job in calls[c]
    ensures forall id :: id in JobIds(queue) ==> id in JobIds(queue + more)
  {
    var all, init := calls[..c + 1], calls[..c];
    assert all[..|all| - 1] == init && all[|all| - 1] == calls[c];
    assert JobIds(queue + more) == JobIds(queue) + JobIds(more);
    forall job ensures IsGiven(all, job) <==> IsGiven(init, job) || job in calls[c] {
      if job in calls[c] {
        assert all[c] == calls[c];
      }
      if d: nat :| d < |init| && job in init[d] {
        assert all[d] == init[d];
      }
    }
  }

  lemma {:induction false} AllTakenNext(arrivals: nat -> seq<seq<FillJob>>, round: nat, taken: seq<FillJob>,
                                        more: seq<FillJob>)
    requires AllTaken(arrivals, round, taken)
    requires forall job :: IsGiven(arrivals(round), job) ==> job.tweetId in JobIds(taken + more)
    ensures AllTaken(arrivals, round + 1, taken + more)
  {
    assert JobIds(taken + more) == JobIds(taken) + JobIds(more);
  }

  lemma {:induction false} DistinctPlaces(places: seq<nat>, members: set<nat>)
    requires forall j, k :: 0 <= j < k < |places| ==> places[j] < places[k]
    requires forall i :: i in places <==> i in members
    ensures |members| == |places|
  {
    if places == [] {
      assert members == {};
    } else {
      var n := |places| - 1;
      assert places == places[..n] + [places[n]];
      DistinctPlaces(places[..n], members - {places[n]});
    }
  }

  /** As many are admitted as are new, and each of them is. */
  lemma {:induction false} FillsAllNew(jobs: seq<FillJob>, pending: set<TweetId>, queue: seq<FillJob>)
    ensures var (admitted, marked) := Admit(jobs, pending);
            && |admitted| == |NewPlaces(jobs, pending)|
            && (forall i: nat :: IsNew(jobs, pending, i) ==> jobs[i] in queue + admitted)
            && (forall i :: 0 <= i < |jobs| ==> jobs[i].tweetId in marked)
  {
    var places := AdmitsExactlyNew(jobs, pending);
    DistinctPlaces(places, NewPlaces(jobs, pending));
    var admitted := Admit(jobs, pending).0;
    forall i: nat | IsNew(jobs, pending, i) ensures jobs[i] in queue + admitted {
      var k :| 0 <= k < |places| && places[k] == i;
      assert admitted[k] == jobs[i];
    }
    forall i | 0 <= i < |jobs| ensures jobs[i].tweetId in Admit(jobs, pending).1 {
      AdmitMarksAll(jobs, pending, jobs[i].tweetId);
      assert JobIds(jobs)[i] == jobs[i].tweetId;
    }
  }

  lemma JoinThree(a: seq<FillJob>, b: seq<FillJob>, c: seq<FillJob>)
    ensures a + (b + c) == a + b + c
  {
  }

  /** One batch more, when the jobs after it are still queued. */
  lemma {:induction false} BatchesNext(cache: map<TweetId, Bytes>, batches: seq<seq<FillJob>>, jobs: seq<FillJob>,
                                       scans: nat -> ScanAnswers, stores: nat -> (TweetId -> bool),
                                       queue: seq<FillJob>, all: seq<FillJob>)
    requires AreBatches(batches) && 1 <= |jobs| <= FILL_BATCH_KEYS && Distinct(JobIds(jobs))
    requires Flatten(batches) + (jobs + queue) == all
    ensures AreBatches(batches + [jobs]) && Flatten(batches + [jobs]) + queue == all
    ensures StoredBatches(cache, batches + [jobs], scans, stores) ==
            Stores(StoredBatches(cache, batches, scans, stores), WritesOf(jobs, scans(|batches|)), stores(|batches|))
  {
    var more := batches + [jobs];
    assert more[..|more| - 1] == batches && more[|more| - 1] == jobs;
    JoinThree(Flatten(batches), jobs, queue);
  }

  lemma {:induction false} ArrivedNext(arrivals: nat -> seq<seq<FillJob>>, round: nat, accepted: seq<FillJob>,
                                       more: seq<FillJob>)
    requires Arrived(arrivals, round, accepted) && forall job :: job in more ==> IsGiven(arrivals(round), job)
    ensures Arrived(arrivals, round + 1, accepted + more)
  {
  }

  /** How the jobs fall into batches makes no difference while the answers are the same. */
  lemma {:induction false} BatchesDoNotMatter(cache: map<TweetId, Bytes>, batches: seq<seq<FillJob>>,
                                              scans: nat -> ScanAnswers, stores: nat -> (TweetId -> bool))
    requires forall n :: scans(n) == scans(0) && stores(n) == stores(0)
    ensures StoredBatches(cache, batches, scans, stores) ==
            Stores(cache, WritesOf(Flatten(batches), scans(0)), stores(0))
  {
    if batches != [] {
      var n := |batches| - 1;
      BatchesDoNotMatter(cache, batches[..n], scans, stores);
      WritesOfConcat(Flatten(batches[..n]), batches[n], scans(0));
      StoresConcat(cache, WritesOf(Flatten(batches[..n]), scans(0)), WritesOf(batches[n], scans(0)), stores(0));
    }
  }

  lemma RereadGrows(jobs: seq<FillJob>, i: nat, id: TweetId)
    requires i < |jobs|
    ensures IsReread(jobs[..i + 1], id) <==>
            (IsReread(jobs[..i], id) || (jobs[i].tweetId == id && jobs[i].labels.Reread?))
  {
    var before, after := jobs[..i], jobs[..i + 1];
    assert after[i] == jobs[i];
    if k :| 0 <= k < |before| && before[k].tweetId == id && before[k].labels.Reread? {
      assert after[k] == before[k];
    }
  }

  /** The ids of the jobs that are to be reread. */
  ghost function RereadIds(jobs: seq<FillJob>): set<TweetId> {
    set id | id in IdSet(jobs) && IsReread(jobs, id)
  }

  lemma RereadIdsMembers(jobs: seq<FillJob>, id: TweetId)
    ensures id in RereadIds(jobs) <==> IsReread(jobs, id)
  {
    if k :| 0 <= k < |jobs| && jobs[k].tweetId == id && jobs[k].labels.Reread? {
      assert JobIds(jobs)[k] == id;
    }
  }

  lemma AnsweredGrows(jobs: seq<FillJob>, i: nat, scan: ScanAnswers)
    requires i < |jobs|
    ensures var id := jobs[i].tweetId;
            Answered(jobs[..i + 1], scan) ==
            if jobs[i].labels.Reread? && scan(id).Some? then Answered(jobs[..i], scan)[id := scan(id).value]
            else Answered(jobs[..i], scan)
  {
    var id := jobs[i].tweetId;
    forall x ensures x in RereadIds(jobs[..i + 1]) <==>
                     x in RereadIds(jobs[..i]) || (x == id && jobs[i].labels.Reread?)
    {
      RereadGrows(jobs, i, x);
      RereadIdsMembers(jobs[..i], x);
      RereadIdsMembers(jobs[..i + 1], x);
    }
  }
}
