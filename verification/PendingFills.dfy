/** The fill protocol: in every run, an id is marked pending exactly while one
    job for it is held by a `fill` call, queued, or in the writer's hands. */
module PendingFills {
  import opened Basics
  import opened Labels
  import opened LabelEntry
  import opened LabelCacheProtocol

  /** How often an id occurs in a list. */
  ghost function Count(ids: seq<TweetId>, id: TweetId): nat {
    multiset(ids)[id]
  }

  ghost function TaskFills(task: Task, id: TweetId): nat {
    Count(JobIds(task.unsent), id) + Count(task.dropped, id)
  }

  ghost function TasksFills(tasks: seq<Task>, id: TweetId): nat {
    if tasks == [] then 0 else TasksFills(tasks[..|tasks| - 1], id) + TaskFills(tasks[|tasks| - 1], id)
  }

  ghost function WriterFills(writer: Writer, id: TweetId): nat {
    match writer
    case Idle => 0
    case Scanning(jobs, _, _) => Count(JobIds(jobs), id)
    case Writing(ids, _) => Count(ids, id)
  }

  /** How many fills for an id are on their way to the cache. */
  ghost function FillsOnTheirWay(s: State, id: TweetId): nat {
    TasksFills(s.tasks, id) + Count(JobIds(s.queue), id) + WriterFills(s.writer, id)
  }

  ghost predicate ExactFor(s: State, id: TweetId) {
    FillsOnTheirWay(s, id) == if id in s.pending then 1 else 0
  }

  ghost predicate PendingExact(s: State) {
    && (forall id :: ExactFor(s, id))
    && |s.queue| <= FILL_QUEUE_KEYS
    && (s.writer.Scanning? ==> |s.writer.jobs| <= FILL_BATCH_KEYS)
  }

  lemma CountSplit(a: seq<TweetId>, b: seq<TweetId>, id: TweetId)
    ensures Count(a + b, id) == Count(a, id) + Count(b, id)
  {
  }

  lemma CountOne(x: TweetId, id: TweetId)
    ensures Count([x], id) == if x == id then 1 else 0
  {
  }

  lemma JobCountSplit(a: seq<FillJob>, b: seq<FillJob>, id: TweetId)
    ensures Count(JobIds(a + b), id) == Count(JobIds(a), id) + Count(JobIds(b), id)
  {
    assert JobIds(a + b) == JobIds(a) + JobIds(b);
    CountSplit(JobIds(a), JobIds(b), id);
  }

  lemma JobCountHead(jobs: seq<FillJob>, id: TweetId)
    requires jobs != []
    ensures Count(JobIds(jobs), id) == (if jobs[0].tweetId == id then 1 else 0) + Count(JobIds(jobs[1..]), id)
  {
    assert jobs == [jobs[0]] + jobs[1..] && JobIds([jobs[0]]) == [jobs[0].tweetId];
    JobCountSplit([jobs[0]], jobs[1..], id);
    CountOne(jobs[0].tweetId, id);
  }

  lemma {:induction false} TasksFillsUpdate(tasks: seq<Task>, k: nat, task: Task, id: TweetId)
    requires k < |tasks|
    ensures TasksFills(tasks[k := task], id) + TaskFills(tasks[k], id) == TasksFills(tasks, id) + TaskFills(task, id)
  {
    var n := |tasks| - 1;
    if k < n {
      assert tasks[k := task][..n] == tasks[..n][k := task];
      TasksFillsUpdate(tasks[..n], k, task, id);
    } else {
      assert tasks[k := task][..n] == tasks[..n];
    }
  }

  lemma {:induction false} AdmitMarks(jobs: seq<FillJob>, pending: set<TweetId>, id: TweetId)
    ensures var (admitted, marked) := Admit(jobs, pending);
            && pending <= marked
            && Count(JobIds(admitted), id) == (if id in marked - pending then 1 else 0)
  {
    if jobs != [] {
      var first := jobs[0].tweetId;
      if first in pending {
        AdmitMarks(jobs[1..], pending, id);
      } else {
        AdmitMarks(jobs[1..], pending + {first}, id);
        var (admitted, _) := Admit(jobs, pending);
        JobCountHead(admitted, id);
      }
    }
  }

  /** Job `i` is the first of its id, which is not pending. */
  ghost predicate IsNew(jobs: seq<FillJob>, pending: set<TweetId>, i: nat) {
    i < |jobs| && jobs[i].tweetId !in pending && forall j :: 0 <= j < i ==> jobs[j].tweetId != jobs[i].tweetId
  }

  /** The jobs admitted are exactly the new ones, in order. */
  lemma {:induction false} AdmitsExactlyNew(jobs: seq<FillJob>, pending: set<TweetId>) returns (places: seq<nat>)
    ensures Embeds(Admit(jobs, pending).0, jobs, places)
    ensures forall i: nat :: i in places <==> IsNew(jobs, pending, i)
  {
    if jobs == [] {
      places := [];
    } else {
      var rest, id := jobs[1..], jobs[0].tweetId;
      assert jobs == [jobs[0]] + rest;
      if id in pending {
        var same := AdmitsExactlyNew(rest, pending);
        ShiftEmbeds(Admit(rest, pending).0, rest, same, jobs[0]);
        places := Shifted(same);
        forall i: nat ensures i in places <==> IsNew(jobs, pending, i) {
          NewInRest(jobs, pending, i);
          InShifted(same, i);
        }
      } else {
        var later := AdmitsExactlyNew(rest, pending + {id});
        ShiftEmbeds(Admit(rest, pending + {id}).0, rest, later, jobs[0]);
        places := [0] + Shifted(later);
        forall i: nat ensures i in places <==> IsNew(jobs, pending, i) {
          NewInRest(jobs, pending, i);
          InShifted(later, i);
        }
      }
    }
  }

  /** Every id of the jobs is marked. */
  lemma {:induction false} AdmitMarksAll(jobs: seq<FillJob>, pending: set<TweetId>, id: TweetId)
    ensures id in Admit(jobs, pending).1 <==> id in pending || id in JobIds(jobs)
  {
    if jobs != [] {
      assert JobIds(jobs) == [jobs[0].tweetId] + JobIds(jobs[1..]);
      AdmitMarksAll(jobs[1..], pending, id);
      AdmitMarksAll(jobs[1..], pending + {jobs[0].tweetId}, id);
    }
  }

  /** Which of the jobs after the first are new. */
  lemma NewInRest(jobs: seq<FillJob>, pending: set<TweetId>, i: nat)
    requires jobs != []
    ensures IsNew(jobs, pending, 0) <==> jobs[0].tweetId !in pending
    ensures i > 0 ==> (IsNew(jobs, pending, i) <==> IsNew(jobs[1..], pending + {jobs[0].tweetId}, i - 1))
    ensures i > 0 && jobs[0].tweetId in pending ==>
              (IsNew(jobs, pending, i) <==> IsNew(jobs[1..], pending, i - 1))
  {
    assert forall j :: 0 < j < |jobs| ==> jobs[j] == jobs[1..][j - 1];
  }

  lemma {:induction false} AdmittedIsGiven(jobs: seq<FillJob>, pending: set<TweetId>, job: FillJob)
    requires job in Admit(jobs, pending).0
    ensures job in jobs
  {
    if jobs[0].tweetId in pending {
      AdmittedIsGiven(jobs[1..], pending, job);
    } else if job != jobs[0] {
      AdmittedIsGiven(jobs[1..], pending + {jobs[0].tweetId}, job);
    }
  }

  ghost function Marked(s: State, id: TweetId): nat {
    if id in s.pending then 1 else 0
  }

  /** A step that changes one task, the queue and the pending set stays exact
      when it changes their counts together. */
  lemma TaskStep(s: State, s': State, k: nat, id: TweetId)
    requires ExactFor(s, id) && k < |s.tasks| == |s'.tasks|
    requires s'.tasks == s.tasks[k := s'.tasks[k]] && s'.writer == s.writer
    requires TaskFills(s'.tasks[k], id) + Count(JobIds(s'.queue), id) + Marked(s, id) ==
             TaskFills(s.tasks[k], id) + Count(JobIds(s.queue), id) + Marked(s', id)
    ensures ExactFor(s', id)
  {
    TasksFillsUpdate(s.tasks, k, s'.tasks[k], id);
  }

  lemma SendStep(decoders: Decoders, s: State, k: nat, id: TweetId)
    requires ExactFor(s, id) && Enabled(decoders, s, Send(k))
    ensures ExactFor(Apply(decoders, s, Send(k)), id)
  {
    var s', task := Apply(decoders, s, Send(k)), s.tasks[k];
    var job := task.unsent[0];
    JobCountHead(task.unsent, id);
    if |s.queue| < FILL_QUEUE_KEYS {
      JobCountSplit(s.queue, [job], id);
      JobCountHead([job], id);
    } else {
      CountSplit(task.dropped, [job.tweetId], id);
      CountOne(job.tweetId, id);
    }
    TaskStep(s, s', k, id);
  }

  lemma BeginFillStep(decoders: Decoders, s: State, k: nat, jobs: seq<FillJob>, id: TweetId)
    requires ExactFor(s, id) && Enabled(decoders, s, BeginFill(k, jobs))
    ensures ExactFor(Apply(decoders, s, BeginFill(k, jobs)), id)
  {
    AdmitMarks(jobs, s.pending, id);
    TaskStep(s, Apply(decoders, s, BeginFill(k, jobs)), k, id);
  }

  /** Only this task holds the ids it drops, so unmarking them is exact. */
  lemma EndFillStep(decoders: Decoders, s: State, k: nat, id: TweetId)
    requires ExactFor(s, id) && Enabled(decoders, s, EndFill(k))
    ensures ExactFor(Apply(decoders, s, EndFill(k)), id)
  {
    var task := s.tasks[k];
    assert id in task.dropped <==> Count(task.dropped, id) > 0;
    TasksFillsUpdate(s.tasks, k, task.(dropped := []), id);
  }

  lemma TakeStep(decoders: Decoders, s: State, count: nat, id: TweetId)
    requires ExactFor(s, id) && Enabled(decoders, s, Take(count))
    ensures ExactFor(Apply(decoders, s, Take(count)), id)
  {
    JobCountSplit(s.queue[..count], s.queue[count..], id);
    assert s.queue[..count] + s.queue[count..] == s.queue;
  }

  lemma FinishStep(decoders: Decoders, s: State, id: TweetId)
    requires ExactFor(s, id) && Enabled(decoders, s, Finish)
    ensures ExactFor(Apply(decoders, s, Finish), id)
  {
    assert id in s.writer.ids <==> Count(s.writer.ids, id) > 0;
  }

  lemma BeginStep(decoders: Decoders, s: State, switches: Switches, id: TweetId)
    requires ExactFor(s, id)
    ensures ExactFor(Apply(decoders, s, Begin(switches)), id)
  {
    var s' := Apply(decoders, s, Begin(switches));
    assert s'.tasks[..|s.tasks|] == s.tasks;
    assert JobIds([]) == [];
    assert TaskFills(s'.tasks[|s.tasks|], id) == 0;
  }

  lemma StepKeepsExact(decoders: Decoders, s: State, step: Step, id: TweetId)
    requires ExactFor(s, id) && Enabled(decoders, s, step)
    ensures ExactFor(Apply(decoders, s, step), id)
  {
    match step {
      case Begin(switches) => BeginStep(decoders, s, switches, id);
      case See(k, _, _) => TaskStep(s, Apply(decoders, s, step), k, id);
      case Scan(k, _) => TaskStep(s, Apply(decoders, s, step), k, id);
      case BeginFill(k, jobs) => BeginFillStep(decoders, s, k, jobs, id);
      case Send(k) => SendStep(decoders, s, k, id);
      case EndFill(k) => EndFillStep(decoders, s, k, id);
      case Take(count) => TakeStep(decoders, s, count, id);
      case Finish => FinishStep(decoders, s, id);
      case _ =>
    }
  }

  lemma StepKeepsPending(decoders: Decoders, s: State, step: Step)
    requires PendingExact(s) && Enabled(decoders, s, step)
    ensures PendingExact(Apply(decoders, s, step))
  {
    forall id ensures ExactFor(Apply(decoders, s, step), id) {
      assert ExactFor(s, id);
      StepKeepsExact(decoders, s, step, id);
    }
  }

  /** The pending set is exact in every state of every run. */
  lemma {:induction false} RunKeepsPending(decoders: Decoders, start: U64, steps: seq<Step>)
    requires Run(decoders, start, steps).Some?
    ensures PendingExact(Run(decoders, start, steps).value)
  {
    if steps != [] {
      var n := |steps| - 1;
      RunKeepsPending(decoders, start, steps[..n]);
      StepKeepsPending(decoders, Run(decoders, start, steps[..n]).value, steps[n]);
    }
  }

  lemma CountAt(ids: seq<TweetId>, i: nat, j: nat)
    requires i < j < |ids| && ids[i] == ids[j]
    ensures Count(ids, ids[i]) >= 2
  {
    assert ids == ids[..j] + [ids[j]] + ids[j + 1..];
    CountSplit(ids[..j] + [ids[j]], ids[j + 1..], ids[i]);
    CountSplit(ids[..j], [ids[j]], ids[i]);
    assert ids[..j][i] in multiset(ids[..j]);
  }

  /** An id is pending exactly when one fill for it is on its way; there are
      never two, and no batch repeats an id. */
  lemma OneFillPerPendingId(decoders: Decoders, start: U64, steps: seq<Step>, id: TweetId)
    requires Run(decoders, start, steps).Some?
    ensures var s := Run(decoders, start, steps).value;
            && FillsOnTheirWay(s, id) == (if id in s.pending then 1 else 0)
            && (s.writer.Scanning? ==> |s.writer.jobs| <= FILL_BATCH_KEYS && Distinct(JobIds(s.writer.jobs)))
  {
    RunKeepsPending(decoders, start, steps);
    var s := Run(decoders, start, steps).value;
    assert ExactFor(s, id);
    if s.writer.Scanning? {
      var ids := JobIds(s.writer.jobs);
      forall i, j | 0 <= i < j < |ids| ensures ids[i] != ids[j] {
        assert ExactFor(s, ids[i]);
        if ids[i] == ids[j] {
          CountAt(ids, i, j);
        }
      }
    }
  }

  /** When no batch repeats an id, building the writes loses no scan: every
      scanned job, and every reread job whose scan was answered, is written
      with its own generation and items, and nothing else is. */
  lemma {:induction false} BuildWritesExact(jobs: seq<FillJob>, found: map<TweetId, seq<RawSafetyLabel>>,
                                            write: (TweetId, Bytes))
    requires Distinct(JobIds(jobs))
    ensures write in BuildWrites(jobs, found) <==>
            exists i :: 0 <= i < |jobs| && IsWriteOf(jobs[i], found, write)
  {
    if jobs != [] {
      var job := jobs[0];
      assert forall i :: 0 <= i < |jobs| - 1 ==> jobs[1..][i] == jobs[i + 1];
      assert forall i :: 0 < i < |jobs| ==> JobIds(jobs)[i] != job.tweetId && jobs[i] == jobs[1..][i - 1];
      assert Distinct(JobIds(jobs[1..]));
      BuildWritesExact(jobs[1..], found, write);
      BuildWritesExact(jobs[1..], found - {job.tweetId}, write);
    }
  }

  /** The write a job leads to, given the answered rereads. */
  ghost predicate IsWriteOf(job: FillJob, found: map<TweetId, seq<RawSafetyLabel>>, write: (TweetId, Bytes)) {
    match job.labels
    case Scanned(items) => write == (job.tweetId, EncodeEntry(job.fill, items))
    case Reread => job.tweetId in found && write == (job.tweetId, EncodeEntry(job.fill, found[job.tweetId]))
  }

  /** In every run, the writer's batch is written without loss. */
  lemma NoScanIsLost(decoders: Decoders, start: U64, steps: seq<Step>, write: (TweetId, Bytes))
    requires Run(decoders, start, steps).Some?
    requires Run(decoders, start, steps).value.writer.Scanning?
    ensures var Scanning(jobs, _, found) := Run(decoders, start, steps).value.writer;
            write in BuildWrites(jobs, found) <==>
            exists i :: 0 <= i < |jobs| && IsWriteOf(jobs[i], found, write)
  {
    OneFillPerPendingId(decoders, start, steps, 0);
    var Scanning(jobs, _, found) := Run(decoders, start, steps).value.writer;
    BuildWritesExact(jobs, found, write);
  }
}
