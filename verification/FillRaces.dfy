/** Races that do happen, as runs from the initial state: a stored step that goes
    down, also below what another server stored, and an invalidation that an older
    fill outruns. `Generations` and `Invalidations` say exactly when. */
module FillRaces {
  import opened Basics
  import opened Labels
  import opened LabelEntry
  import opened Manhattan
  import opened LabelCacheProtocol
  import opened FillQueue
  import opened FillRuns
  import opened FillLock
  import opened Generations

  const POST: TweetId := 7
  const SWITCHES := Switches(0, 10_000, 1_000, 1_000, 0, 0, 0)

  /** The steps of a `fill` call for one job. */
  ghost function CallSteps(k: nat, job: FillJob): seq<Step> {
    [BeginFill(k, [job])] + (Sends(k, 1) + [EndFill(k)])
  }

  lemma CallGoesThrough(decoders: Decoders, s: State, k: nat, job: FillJob)
    requires Enabled(decoders, s, BeginFill(k, [job])) && s.queue == [] && s.pending == {}
    ensures RunFrom(decoders, s, CallSteps(k, job)) == Some(s.(queue := [job], pending := IdSet([job])))
  {
    var jobs := [job];
    AdmitOne(job);
    UninterruptedFill(decoders, s, k, jobs);
    assert jobs[..1] == jobs && s.queue + jobs == jobs;
    assert {} + IdSet(jobs) == IdSet(jobs);
  }

  /** The steps of one fill that nothing interrupts, from the `fill` call to the
      end of the writer's batch. */
  ghost function FillSteps(k: nat, job: FillJob, scan: ScanAnswers): seq<Step> {
    CallSteps(k, job) + BatchSteps([job], scan, (id: TweetId) => true)
  }

  /** Such a fill stores the job's entry and nothing else. */
  lemma FillGoesThrough(decoders: Decoders, s: State, k: nat, job: FillJob, scan: ScanAnswers)
    requires Enabled(decoders, s, BeginFill(k, [job])) && s.queue == [] && s.writer.Idle? && s.pending == {}
    requires TrueScan(decoders, s.history, scan)
    requires ItemsOf(job, scan(job.tweetId)).Some?
    ensures RunFrom(decoders, s, FillSteps(k, job, scan)) ==
            Some(s.(cache := s.cache[job.tweetId := EncodeEntry(job.fill, ItemsOf(job, scan(job.tweetId)).value)]))
  {
    var jobs, stores := [job], (id: TweetId) => true;
    CallGoesThrough(decoders, s, k, job);
    RunFromConcat(decoders, s, CallSteps(k, job), BatchSteps(jobs, scan, stores));
    UninterruptedWrite(decoders, s.(queue := jobs, pending := IdSet(jobs)), jobs, scan, stores);
    OneWrite(s.cache, job, scan, stores);
    assert jobs[1..] == [] && IdSet(jobs) - IdSet(jobs) == {};
  }

  lemma AdmitOne(job: FillJob)
    ensures Admit([job], {}).0 == [job]
  {
    var jobs := [job];
    assert jobs[1..] == [];
    assert Admit(jobs[1..], {} + {job.tweetId}).0 == [];
  }

  lemma OneWrite(cache: map<TweetId, Bytes>, job: FillJob, scan: ScanAnswers, stores: TweetId -> bool)
    requires stores(job.tweetId) && ItemsOf(job, scan(job.tweetId)).Some?
    ensures Stores(cache, BuildWrites([job], Answered([job], scan)), stores) ==
            cache[job.tweetId := EncodeEntry(job.fill, ItemsOf(job, scan(job.tweetId)).value)]
  {
    var jobs, found := [job], Answered([job], scan);
    if job.labels.Reread? {
      assert jobs[0].labels.Reread?;
      assert IsReread(jobs, job.tweetId);
      RereadIdsMembers(jobs, job.tweetId);
    }
    assert jobs[1..] == [];
    assert BuildWrites(jobs[1..], found) == [] && BuildWrites(jobs[1..], found - {job.tweetId}) == [];
    var write := (job.tweetId, EncodeEntry(job.fill, ItemsOf(job, scan(job.tweetId)).value));
    var writes := [write];
    assert BuildWrites(jobs, found) == writes && writes[..0] == [];
  }

  /** The steps by which a new lookup reads the post at a time. */
  ghost function ReadSteps(s: State, nowMs: U64): seq<Step> {
    [Tick(nowMs), Begin(SWITCHES), See(|s.tasks|, POST, true)]
  }

  ghost function Reader(nowMs: U64, read: EntryRead): Task {
    Task(ReadContext(nowMs, SWITCHES), map[POST := read], map[], [], [])
  }

  lemma ReadGoesThrough(decoders: Decoders, s: State, nowMs: U64)
    requires s.nowMs <= nowMs
    ensures var reply := if POST in s.cache then Stored(s.cache[POST]) else Absent;
            var read := ReadEntry(decoders, reply, ReadContext(nowMs, SWITCHES));
            RunFrom(decoders, s, ReadSteps(s, nowMs)) ==
            Some(s.(nowMs := nowMs, tasks := s.tasks + [Reader(nowMs, read)]))
  {
    var k := |s.tasks|;
    var s1 := Apply(decoders, s, Tick(nowMs));
    var s2 := Apply(decoders, s1, Begin(SWITCHES));
    var s3 := Apply(decoders, s2, See(k, POST, true));
    RunFromOne(decoders, s, Tick(nowMs), [Begin(SWITCHES), See(k, POST, true)]);
    RunFromOne(decoders, s1, Begin(SWITCHES), [See(k, POST, true)]);
    RunFromOne(decoders, s2, See(k, POST, true), []);
    assert [Tick(nowMs)] + [Begin(SWITCHES), See(k, POST, true)] == ReadSteps(s, nowMs);
    assert [Begin(SWITCHES)] + [See(k, POST, true)] == [Begin(SWITCHES), See(k, POST, true)];
    assert [See(k, POST, true)] + [] == [See(k, POST, true)];
    assert s3.tasks == s.tasks + [s3.tasks[k]];
  }

  /** A step more or a stretch more of a run. */
  lemma Extend(decoders: Decoders, start: U64, steps: seq<Step>, s: State, more: seq<Step>, s': State)
    requires Run(decoders, start, steps) == Some(s) && RunFrom(decoders, s, more) == Some(s')
    ensures Run(decoders, start, steps + more) == Some(s')
  {
    RunThen(decoders, start, steps, more);
  }

  ghost function EmptyEntry(step: U8): Bytes {
    EncodeEntry(Fill(0, step), [])
  }

  /** An entry without labels, filled at time 0, is a hit that has its refresh due. */
  lemma EmptyEntryRead(decoders: Decoders, step: U8, nowMs: U64)
    requires nowMs < 1_000_000
    ensures ReadEntry(decoders, Stored(EmptyEntry(step)), ReadContext(nowMs, SWITCHES)) ==
            Hit(Envelope(Fill(0, step), NotFound), DueRefresh(Fill(0, step), ReadContext(nowMs, SWITCHES)))
    ensures StoredFill(decoders, Some(EmptyEntry(step))) == Some(Fill(0, step))
  {
    EntryRoundTrip(decoders, Fill(0, step), []);
  }

  /** A first lookup, which finds nothing. */
  ghost function FirstReader(): State {
    Init(0).(tasks := [Reader(0, Miss)])
  }

  lemma FirstReaderHappens(decoders: Decoders)
    ensures Run(decoders, 0, ReadSteps(Init(0), 0)) == Some(FirstReader())
  {
    ReadGoesThrough(decoders, Init(0), 0);
    assert Init(0).tasks + [Reader(0, Miss)] == [Reader(0, Miss)];
    Extend(decoders, 0, [], Init(0), ReadSteps(Init(0), 0), FirstReader());
    assert [] + ReadSteps(Init(0), 0) == ReadSteps(Init(0), 0);
  }

  // ---- The stored step goes down ----

  ghost function HitReader(nowMs: U64): Task {
    Reader(nowMs, Hit(Envelope(Fill(0, 0), NotFound), DueRefresh(Fill(0, 0), ReadContext(nowMs, SWITCHES))))
  }

  /** A post without labels was filled at time 0; one lookup read that entry at 30 s
      and another at 90 s; now the entry has been refreshed to a step. */
  ghost function TwoReaders(step: U8): State {
    FirstReader().(nowMs := 90_000, cache := map[POST := EmptyEntry(step)],
                   tasks := [Reader(0, Miss), HitReader(30_000), HitReader(90_000)])
  }

  ghost function EmptyScan(): ScanAnswers {
    (id: TweetId) => Some([])
  }

  lemma FirstFillHappens(decoders: Decoders) returns (steps: seq<Step>)
    ensures Run(decoders, 0, steps) == Some(FirstReader().(cache := map[POST := EmptyEntry(0)]))
  {
    var s, job := FirstReader(), FillJob(POST, Fill(0, 0), Reread);
    FirstReaderHappens(decoders);
    FillGoesThrough(decoders, s, 0, job, EmptyScan());
    Extend(decoders, 0, ReadSteps(Init(0), 0), s, FillSteps(0, job, EmptyScan()),
           s.(cache := map[POST := EmptyEntry(0)]));
    steps := ReadSteps(Init(0), 0) + FillSteps(0, job, EmptyScan());
  }

  lemma TwoReadersHappen(decoders: Decoders) returns (steps: seq<Step>)
    ensures Run(decoders, 0, steps) == Some(TwoReaders(0))
  {
    steps := FirstFillHappens(decoders);
    var s1 := FirstReader().(cache := map[POST := EmptyEntry(0)]);
    var s2 := s1.(nowMs := 30_000, tasks := [Reader(0, Miss), HitReader(30_000)]);
    EmptyEntryRead(decoders, 0, 30_000);
    ReadGoesThrough(decoders, s1, 30_000);
    assert s1.tasks + [HitReader(30_000)] == s2.tasks;
    Extend(decoders, 0, steps, s1, ReadSteps(s1, 30_000), s2);
    EmptyEntryRead(decoders, 0, 90_000);
    ReadGoesThrough(decoders, s2, 90_000);
    assert s2.tasks + [HitReader(90_000)] == TwoReaders(0).tasks;
    Extend(decoders, 0, steps + ReadSteps(s1, 30_000), s2, ReadSteps(s2, 90_000), TwoReaders(0));
    steps := steps + ReadSteps(s1, 30_000) + ReadSteps(s2, 90_000);
  }

  /** Each of the two readers can have its refresh written, whatever is stored. */
  lemma RefreshGoesThrough(decoders: Decoders, stored: U8, k: nat)
    requires k == 1 || k == 2
    ensures RunFrom(decoders, TwoReaders(stored), FillSteps(k, FillJob(POST, Fill(0, k), Reread), EmptyScan())) ==
            Some(TwoReaders(k))
  {
    var s, job := TwoReaders(stored), FillJob(POST, Fill(0, k), Reread);
    RefreshIsDue(decoders, stored, k);
    EmptyScanIsTrue(decoders);
    FillGoesThrough(decoders, s, k, job, EmptyScan());
    SameReaders(stored, k);
  }

  lemma SameReaders(stored: U8, step: U8)
    ensures TwoReaders(stored).(cache := TwoReaders(stored).cache[POST := EmptyEntry(step)]) == TwoReaders(step)
  {
    assert map[POST := EmptyEntry(stored)][POST := EmptyEntry(step)] == map[POST := EmptyEntry(step)];
  }

  lemma EmptyScanIsTrue(decoders: Decoders)
    ensures TrueScan(decoders, [], EmptyScan())
  {
  }

  lemma RefreshIsDue(decoders: Decoders, stored: U8, k: nat)
    requires k == 1 || k == 2
    ensures Enabled(decoders, TwoReaders(stored), BeginFill(k, [FillJob(POST, Fill(0, k), Reread)]))
  {
    var nowMs := if k == 1 then 30_000 else 90_000;
    var task, job := HitReader(nowMs), FillJob(POST, Fill(0, k), Reread);
    assert DueRefresh(Fill(0, 0), ReadContext(nowMs, SWITCHES)) == Some(Fill(0, k));
    assert Justified(job, task.context, task.seen, task.scans);
    assert TwoReaders(stored).tasks[k] == task;
  }

  /** The refresh of the later read is stored first, then that of the earlier one. */
  lemma StepGoesDown(decoders: Decoders) returns (steps: seq<Step>, more: seq<Step>)
    ensures Run(decoders, 0, steps).Some? && Run(decoders, 0, steps + more).Some?
    ensures StoredFill(decoders, EntryAt(Run(decoders, 0, steps).value, POST)) == Some(Fill(0, 2))
    ensures StoredFill(decoders, EntryAt(Run(decoders, 0, steps + more).value, POST)) == Some(Fill(0, 1))
  {
    var start := TwoReadersHappen(decoders);
    var late := FillSteps(2, FillJob(POST, Fill(0, 2), Reread), EmptyScan());
    RefreshGoesThrough(decoders, 0, 2);
    Extend(decoders, 0, start, TwoReaders(0), late, TwoReaders(2));
    steps, more := start + late, FillSteps(1, FillJob(POST, Fill(0, 1), Reread), EmptyScan());
    RefreshGoesThrough(decoders, 2, 1);
    Extend(decoders, 0, steps, TwoReaders(2), more, TwoReaders(1));
    EmptyEntryRead(decoders, 2, 0);
    EmptyEntryRead(decoders, 1, 0);
  }

  // ---- The store of another server is lowered ----

  /** The first lookup's fill is queued, and then another server has stored an entry
      that it has refreshed twice. */
  ghost function StoredElsewhere(job: FillJob): State {
    FirstReader().(queue := [job], pending := IdSet([job]), cache := map[POST := EmptyEntry(2)])
  }

  lemma StoredElsewhereHappens(decoders: Decoders, job: FillJob) returns (steps: seq<Step>)
    requires job == FillJob(POST, Fill(0, 0), Reread)
    ensures Run(decoders, 0, steps) == Some(StoredElsewhere(job))
  {
    var s, store := FirstReader(), OtherServer(POST, Fill(0, 2), []);
    FirstReaderHappens(decoders);
    assert Justified(job, s.tasks[0].context, s.tasks[0].seen, s.tasks[0].scans);
    CallGoesThrough(decoders, s, 0, job);
    var s' := s.(queue := [job], pending := IdSet([job]));
    Extend(decoders, 0, ReadSteps(Init(0), 0), s, CallSteps(0, job), s');
    EmptyIsHeld();
    StepGoesThrough(decoders, s', store, StoredElsewhere(job));
    Extend(decoders, 0, ReadSteps(Init(0), 0) + CallSteps(0, job), s', [store], StoredElsewhere(job));
    steps := ReadSteps(Init(0), 0) + CallSteps(0, job) + [store];
  }

  lemma EmptyIsHeld()
    ensures HeldWithin([], POST, [], 0, 0)
  {
    CurrentIsHeld([], POST, 0);
  }

  /** A fill that found nothing when it was admitted is written over the twice
      refreshed entry that another server has stored since. */
  lemma OtherServerIsLowered(decoders: Decoders) returns (steps: seq<Step>, more: seq<Step>)
    ensures Run(decoders, 0, steps).Some? && Run(decoders, 0, steps + more).Some?
    ensures StoredFill(decoders, EntryAt(Run(decoders, 0, steps).value, POST)) == Some(Fill(0, 2))
    ensures StoredFill(decoders, EntryAt(Run(decoders, 0, steps + more).value, POST)) == Some(Fill(0, 0))
  {
    var job, stores := FillJob(POST, Fill(0, 0), Reread), (id: TweetId) => true;
    var jobs, s := [job], StoredElsewhere(job);
    steps := StoredElsewhereHappens(decoders, job);
    more := BatchSteps(jobs, EmptyScan(), stores);
    EmptyScanIsTrue(decoders);
    UninterruptedWrite(decoders, s, jobs, EmptyScan(), stores);
    OneWrite(s.cache, job, EmptyScan(), stores);
    Extend(decoders, 0, steps, s, more, RunFrom(decoders, s, more).value);
    EmptyEntryRead(decoders, 2, 0);
    EmptyEntryRead(decoders, 0, 0);
  }

  // ---- An invalidation is outrun ----

  /** The first lookup has scanned the post, and then the post got a label. */
  ghost function LabelledSince(item: RawSafetyLabel): State {
    FirstReader().(tasks := [Reader(0, Miss).(scans := map[POST := []])], history := [Change(0, POST, [item])])
  }

  lemma LabelledSinceHappens(decoders: Decoders, item: RawSafetyLabel) returns (steps: seq<Step>)
    ensures Run(decoders, 0, steps) == Some(LabelledSince(item))
  {
    FirstReaderHappens(decoders);
    steps := ReadSteps(Init(0), 0);
    var s := FirstReader().(tasks := [Reader(0, Miss).(scans := map[POST := []])]);
    StepGoesThrough(decoders, FirstReader(), Scan(0, POST), s);
    Extend(decoders, 0, steps, FirstReader(), [Scan(0, POST)], s);
    StepGoesThrough(decoders, s, ManhattanWrite(POST, [item]), LabelledSince(item));
    Extend(decoders, 0, steps + [Scan(0, POST)], s, [ManhattanWrite(POST, [item])], LabelledSince(item));
    steps := steps + [Scan(0, POST)] + [ManhattanWrite(POST, [item])];
  }

  /** A lookup misses the post and scans it; then the post gets a label, and its
      entry is invalidated; then the lookup's fill is written. The cache ends
      without the label, after an invalidation that came after it. */
  lemma InvalidationIsOutrun(decoders: Decoders, item: RawSafetyLabel) returns (steps: seq<Step>, m: nat)
    ensures Run(decoders, 0, steps).Some? && m < |steps|
    ensures steps[m] == Remove(POST)
    ensures Current(StateAt(decoders, 0, steps, m).history, POST) == [item]
    ensures EntryAt(Run(decoders, 0, steps).value, POST) == Some(EmptyEntry(0))
  {
    var before := LabelledSinceHappens(decoders, item);
    var s := LabelledSince(item);
    StepGoesThrough(decoders, s, Remove(POST), s);
    Extend(decoders, 0, before, s, [Remove(POST)], s);
    var job, scan := FillJob(POST, Fill(0, 0), Scanned([])), (id: TweetId) => None;
    assert Justified(job, s.tasks[0].context, s.tasks[0].seen, s.tasks[0].scans);
    FillGoesThrough(decoders, s, 0, job, scan);
    var s' := s.(cache := map[POST := EmptyEntry(0)]);
    Extend(decoders, 0, before + [Remove(POST)], s, FillSteps(0, job, scan), s');
    m, steps := |before|, before + [Remove(POST)] + FillSteps(0, job, scan);
    assert steps[..m] == before;
  }

  lemma StepGoesThrough(decoders: Decoders, s: State, step: Step, s': State)
    requires Enabled(decoders, s, step) && Apply(decoders, s, step) == s'
    ensures RunFrom(decoders, s, [step]) == Some(s')
  {
    RunFromOne(decoders, s, step, []);
    assert [step] + [] == [step];
  }
}
