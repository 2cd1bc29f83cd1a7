/** The pending mark as a lock: from the `fill` call that admits a job until its id
    is unmarked, no other fill of this server touches the entry of the post. */
module FillLock {
  import opened Basics
  import opened Labels
  import opened LabelEntry
  import opened Manhattan
  import opened LabelCacheProtocol
  import opened PendingFills

  ghost function EntryAt(s: State, id: TweetId): Option<Bytes> {
    if id in s.cache then Some(s.cache[id]) else None
  }

  // ---- The writes of a batch ----

  /** The writes that are left are of posts of the batch, one each. */
  ghost predicate WritesOk(writer: Writer) {
    writer.Writing? ==>
      && (forall i :: 0 <= i < |writer.writes| ==> writer.writes[i].0 in writer.ids)
      && (forall i, j :: 0 <= i < j < |writer.writes| ==> writer.writes[i].0 != writer.writes[j].0)
  }

  ghost predicate HasWrite(writer: Writer, id: TweetId) {
    writer.Writing? && exists i :: 0 <= i < |writer.writes| && writer.writes[i].0 == id
  }

  lemma BatchIsDistinct(s: State)
    requires PendingExact(s) && s.writer.Scanning?
    ensures Distinct(JobIds(s.writer.jobs))
  {
    var ids := JobIds(s.writer.jobs);
    forall i, j | 0 <= i < j < |ids| ensures ids[i] != ids[j] {
      assert ExactFor(s, ids[i]);
      if ids[i] == ids[j] {
        CountAt(ids, i, j);
      }
    }
  }

  lemma {:induction false} BuiltWritesAreDistinct(jobs: seq<FillJob>, found: map<TweetId, seq<RawSafetyLabel>>)
    requires Distinct(JobIds(jobs))
    ensures WritesOk(Writing(JobIds(jobs), BuildWrites(jobs, found)))
  {
    if jobs != [] {
      var id, rest := jobs[0].tweetId, jobs[1..];
      assert JobIds(rest) == JobIds(jobs)[1..];
      assert id !in JobIds(rest);
      BuiltWritesAreDistinct(rest, found);
      BuiltWritesAreDistinct(rest, found - {id});
    }
  }

  lemma StepKeepsWrites(decoders: Decoders, s: State, step: Step)
    requires PendingExact(s) && WritesOk(s.writer) && Enabled(decoders, s, step)
    ensures WritesOk(Apply(decoders, s, step).writer)
  {
    if step.Build? {
      BatchIsDistinct(s);
      BuiltWritesAreDistinct(s.writer.jobs, s.writer.found);
    }
  }

  lemma {:induction false} RunKeepsWrites(decoders: Decoders, start: U64, steps: seq<Step>)
    requires Run(decoders, start, steps).Some?
    ensures WritesOk(Run(decoders, start, steps).value.writer)
  {
    if steps != [] {
      var n := |steps| - 1;
      RunKeepsWrites(decoders, start, steps[..n]);
      RunKeepsPending(decoders, start, steps[..n]);
      StepKeepsWrites(decoders, Run(decoders, start, steps[..n]).value, steps[n]);
    }
  }

  // ---- Where a job is ----

  datatype Place = Sending(task: nat) | Refused(task: nat) | Queued | InBatch | Built

  ghost predicate At(s: State, job: FillJob, place: Place) {
    match place
    case Sending(k) => k < |s.tasks| && job in s.tasks[k].unsent
    case Refused(k) => k < |s.tasks| && job.tweetId in s.tasks[k].dropped
    case Queued => job in s.queue
    case InBatch => s.writer.Scanning? && job in s.writer.jobs
    case Built => s.writer.Writing? && job.tweetId in s.writer.ids
  }

  /** No job of the list but `job` has its id. */
  ghost predicate OnlyJob(jobs: seq<FillJob>, job: FillJob) {
    forall other :: other in jobs && other.tweetId == job.tweetId ==> other == job
  }

  ghost predicate NoJob(jobs: seq<FillJob>, id: TweetId) {
    forall other :: other in jobs ==> other.tweetId != id
  }

  /** The job is at its place and no fill for its post is anywhere else. */
  ghost predicate OnlyAt(s: State, job: FillJob, place: Place) {
    && At(s, job, place)
    && (forall k :: 0 <= k < |s.tasks| ==>
          && (if place == Sending(k) then OnlyJob(s.tasks[k].unsent, job) else NoJob(s.tasks[k].unsent, job.tweetId))
          && (place == Refused(k) || job.tweetId !in s.tasks[k].dropped))
    && (if place == Queued then OnlyJob(s.queue, job) else NoJob(s.queue, job.tweetId))
    && (s.writer.Scanning? ==>
          if place == InBatch then OnlyJob(s.writer.jobs, job) else NoJob(s.writer.jobs, job.tweetId))
    && (s.writer.Writing? && place != Built ==> job.tweetId !in s.writer.ids)
  }

  lemma JobIsCounted(jobs: seq<FillJob>, id: TweetId)
    ensures Count(JobIds(jobs), id) == 0 <==> NoJob(jobs, id)
  {
    assert Count(JobIds(jobs), id) > 0 <==> id in JobIds(jobs);
    if id in JobIds(jobs) {
      var i :| 0 <= i < |jobs| && JobIds(jobs)[i] == id;
      assert jobs[i] in jobs;
    }
    forall other | other in jobs ensures other.tweetId in JobIds(jobs) {
      var i :| 0 <= i < |jobs| && jobs[i] == other;
      assert JobIds(jobs)[i] == other.tweetId;
    }
  }

  lemma CountedOnce(jobs: seq<FillJob>, job: FillJob)
    requires job in jobs && Count(JobIds(jobs), job.tweetId) == 1
    ensures OnlyJob(jobs, job)
  {
    forall other | other in jobs && other.tweetId == job.tweetId ensures other == job {
      var i, j :| 0 <= i < |jobs| && jobs[i] == job && 0 <= j < |jobs| && jobs[j] == other;
      if i < j {
        CountAt(JobIds(jobs), i, j);
      } else if j < i {
        CountAt(JobIds(jobs), j, i);
      }
    }
  }

  lemma {:induction false} TaskIsCounted(tasks: seq<Task>, k: nat, id: TweetId)
    requires k < |tasks|
    ensures TaskFills(tasks[k], id) <= TasksFills(tasks, id)
  {
    var n := |tasks| - 1;
    if k < n {
      TaskIsCounted(tasks[..n], k, id);
    }
  }

  lemma {:induction false} TasksAreCounted(tasks: seq<Task>, j: nat, k: nat, id: TweetId)
    requires j < k < |tasks|
    ensures TaskFills(tasks[j], id) + TaskFills(tasks[k], id) <= TasksFills(tasks, id)
  {
    var n := |tasks| - 1;
    if k < n {
      TasksAreCounted(tasks[..n], j, k, id);
    } else {
      TaskIsCounted(tasks[..n], j, id);
    }
  }

  /** Exactness of the pending set leaves a fill one place. */
  lemma PlaceIsExclusive(s: State, job: FillJob, place: Place)
    requires ExactFor(s, job.tweetId) && At(s, job, place)
    ensures OnlyAt(s, job, place)
  {
    var id := job.tweetId;
    JobIsCounted(s.queue, id);
    if s.writer.Scanning? {
      JobIsCounted(s.writer.jobs, id);
    }
    if place.Queued? {
      CountedOnce(s.queue, job);
    }
    if place.InBatch? {
      CountedOnce(s.writer.jobs, job);
    }
    if place.Sending? || place.Refused? {
      TaskIsCounted(s.tasks, place.task, id);
      JobIsCounted(s.tasks[place.task].unsent, id);
    }
    if place.Sending? {
      CountedOnce(s.tasks[place.task].unsent, job);
    }
    forall k | 0 <= k < |s.tasks| && !(place.Sending? && place.task == k) && !(place.Refused? && place.task == k)
      ensures NoJob(s.tasks[k].unsent, id) && id !in s.tasks[k].dropped
    {
      ExclusiveTask(s, job, place, k);
    }
  }

  lemma ExclusiveTask(s: State, job: FillJob, place: Place, k: nat)
    requires ExactFor(s, job.tweetId) && At(s, job, place) && k < |s.tasks|
    requires place != Sending(k) && place != Refused(k)
    ensures NoJob(s.tasks[k].unsent, job.tweetId) && job.tweetId !in s.tasks[k].dropped
  {
    var id := job.tweetId;
    JobIsCounted(s.tasks[k].unsent, id);
    JobIsCounted(s.queue, id);
    TaskIsCounted(s.tasks, k, id);
    match place {
      case Sending(j) =>
        JobIsCounted(s.tasks[j].unsent, id);
        TasksAreCounted(s.tasks, if j < k then j else k, if j < k then k else j, id);
      case Refused(j) => TasksAreCounted(s.tasks, if j < k then j else k, if j < k then k else j, id);
      case Queued =>
      case InBatch => JobIsCounted(s.writer.jobs, id);
      case Built =>
    }
  }

  // ---- What holds while the lock is held ----

  /** The items a job writes: its own, or those its reread was answered with. */
  ghost function ItemsOf(job: FillJob, reread: Option<seq<RawSafetyLabel>>): Option<seq<RawSafetyLabel>> {
    match job.labels
    case Scanned(items) => Some(items)
    case Reread => reread
  }

  ghost predicate OwnBytes(job: FillJob, reread: Option<seq<RawSafetyLabel>>, bytes: Bytes) {
    ItemsOf(job, reread).Some? && bytes == EncodeEntry(job.fill, ItemsOf(job, reread).value)
  }

  /** The job has not been written yet and still may be. */
  ghost predicate Waiting(writer: Writer, job: FillJob, place: Place) {
    place.Sending? || place.Queued? || place.InBatch? || HasWrite(writer, job.tweetId)
  }

  /** The writer has what the job's reread found, if it was made, and no write for
      its post but the job's own; `current`, the entry of its post, is `entry` as
      long as the job waits, and after that `entry` or the job's own. */
  ghost predicate Guarded(writer: Writer, current: Option<Bytes>, job: FillJob, place: Place, entry: Option<Bytes>,
                          reread: Option<seq<RawSafetyLabel>>)
  {
    var id := job.tweetId;
    && (place.Sending? || place.Queued? ==> reread.None?)
    && (place.InBatch? && writer.Scanning? && job.labels.Reread? ==>
          reread == if id in writer.found then Some(writer.found[id]) else None)
    && (forall i :: writer.Writing? && 0 <= i < |writer.writes| && writer.writes[i].0 == id ==>
          OwnBytes(job, reread, writer.writes[i].1))
    && (if Waiting(writer, job, place) then current == entry
        else current == entry || (current.Some? && OwnBytes(job, reread, current.value)))
  }

  /** The job is at its place, and its post is guarded. */
  ghost predicate Locked(s: State, job: FillJob, place: Place, entry: Option<Bytes>,
                         reread: Option<seq<RawSafetyLabel>>)
  {
    && PendingExact(s) && WritesOk(s.writer) && OnlyAt(s, job, place)
    && Guarded(s.writer, EntryAt(s, job.tweetId), job, place, entry, reread)
  }

  /** What a step does to the entry that a waiting job finds. */
  ghost function EntryAfter(entry: Option<Bytes>, step: Step, id: TweetId): Option<Bytes> {
    match step
    case Remove(x) => if x == id then None else entry
    case OtherServer(x, fill, items) => if x == id then Some(EncodeEntry(fill, items)) else entry
    case _ => entry
  }

  /** What a step does to the reread of a job. */
  ghost function RereadAfter(s: State, reread: Option<seq<RawSafetyLabel>>, step: Step, id: TweetId):
    Option<seq<RawSafetyLabel>>
  {
    if step == Ask(id, true) then Some(Current(s.history, id)) else reread
  }

  /** Where a step takes a job. */
  ghost function PlaceAfter(s: State, job: FillJob, place: Place, step: Step): Place {
    match step
    case Send(k) =>
      if place == Sending(k) && k < |s.tasks| && s.tasks[k].unsent != [] && s.tasks[k].unsent[0] == job then
        if |s.queue| < FILL_QUEUE_KEYS then Queued else Refused(k)
      else place
    case Take(count) => if place == Queued && count <= |s.queue| && job in s.queue[..count] then InBatch else place
    case Build => if place == InBatch then Built else place
    case _ => place
  }

  lemma SendMoves(decoders: Decoders, s: State, job: FillJob, place: Place, k: nat)
    requires At(s, job, place) && Enabled(decoders, s, Send(k))
    ensures At(Apply(decoders, s, Send(k)), job, PlaceAfter(s, job, place, Send(k)))
  {
    var unsent := s.tasks[k].unsent;
    assert unsent == [unsent[0]] + unsent[1..];
  }

  lemma TakeMoves(decoders: Decoders, s: State, job: FillJob, place: Place, count: nat)
    requires At(s, job, place) && Enabled(decoders, s, Take(count))
    ensures At(Apply(decoders, s, Take(count)), job, PlaceAfter(s, job, place, Take(count)))
  {
    assert s.queue == s.queue[..count] + s.queue[count..];
  }

  lemma BuildMoves(decoders: Decoders, s: State, job: FillJob, place: Place)
    requires At(s, job, place) && Enabled(decoders, s, Build)
    ensures At(Apply(decoders, s, Build), job, PlaceAfter(s, job, place, Build))
  {
    if place == InBatch {
      var i :| 0 <= i < |s.writer.jobs| && s.writer.jobs[i] == job;
      assert JobIds(s.writer.jobs)[i] == job.tweetId;
    }
  }

  /** A step of a task other than `Send`. */
  lemma TaskStays(decoders: Decoders, s: State, job: FillJob, place: Place, step: Step)
    requires At(s, job, place) && Enabled(decoders, s, step)
    requires step.See? || step.Scan? || step.BeginFill? || step.EndFill?
    requires job.tweetId in Apply(decoders, s, step).pending
    ensures At(Apply(decoders, s, step), job, place)
  {
    var k := step.task;
    var s' := Apply(decoders, s, step);
    assert s'.tasks == s.tasks[k := s'.tasks[k]] && s'.queue == s.queue && s'.writer == s.writer;
    assert place == Sending(k) ==> s'.tasks[k].unsent == s.tasks[k].unsent;
    assert place == Refused(k) ==> s'.tasks[k].dropped == s.tasks[k].dropped;
  }

  lemma PlaceFollows(decoders: Decoders, s: State, job: FillJob, place: Place, step: Step)
    requires At(s, job, place) && Enabled(decoders, s, step) && job.tweetId in Apply(decoders, s, step).pending
    ensures At(Apply(decoders, s, step), job, PlaceAfter(s, job, place, step))
  {
    match step {
      case See(_, _, _) => TaskStays(decoders, s, job, place, step);
      case Scan(_, _) => TaskStays(decoders, s, job, place, step);
      case BeginFill(_, _) => TaskStays(decoders, s, job, place, step);
      case EndFill(_) => TaskStays(decoders, s, job, place, step);
      case Send(k) => SendMoves(decoders, s, job, place, k);
      case Take(count) => TakeMoves(decoders, s, job, place, count);
      case Build => BuildMoves(decoders, s, job, place);
      case _ =>
    }
  }

  /** The step leaves the job at one place. */
  lemma StaysExclusive(decoders: Decoders, s: State, job: FillJob, place: Place, step: Step)
    requires PendingExact(s) && WritesOk(s.writer) && OnlyAt(s, job, place) && Enabled(decoders, s, step)
    requires job.tweetId in Apply(decoders, s, step).pending
    ensures var s' := Apply(decoders, s, step);
            PendingExact(s') && WritesOk(s'.writer) && OnlyAt(s', job, PlaceAfter(s, job, place, step))
  {
    PlaceFollows(decoders, s, job, place, step);
    StepKeepsPending(decoders, s, step);
    StepKeepsWrites(decoders, s, step);
    assert ExactFor(Apply(decoders, s, step), job.tweetId);
    PlaceIsExclusive(Apply(decoders, s, step), job, PlaceAfter(s, job, place, step));
  }

  /** A step keeps the post of a locked job guarded. */
  ghost predicate StaysGuarded(decoders: Decoders, s: State, job: FillJob, place: Place, entry: Option<Bytes>,
                               reread: Option<seq<RawSafetyLabel>>, step: Step)
    requires Enabled(decoders, s, step)
  {
    var s' := Apply(decoders, s, step);
    Guarded(s'.writer, EntryAt(s', job.tweetId), job, PlaceAfter(s, job, place, step),
            EntryAfter(entry, step, job.tweetId), RereadAfter(s, reread, step, job.tweetId))
  }

  lemma AskGuards(decoders: Decoders, s: State, job: FillJob, place: Place, entry: Option<Bytes>,
                  reread: Option<seq<RawSafetyLabel>>, id: TweetId, answered: bool)
    requires Locked(s, job, place, entry, reread) && Enabled(decoders, s, Ask(id, answered))
    ensures StaysGuarded(decoders, s, job, place, entry, reread, Ask(id, answered))
  {
    if id == job.tweetId {
      var i :| 0 <= i < |s.writer.jobs| && s.writer.jobs[i].tweetId == id && s.writer.jobs[i].labels.Reread?;
      assert s.writer.jobs[i] in s.writer.jobs;
      assert place == InBatch;
    }
  }

  /** A batch that is built has the job's own write for its post, and no other. */
  lemma BuiltWritesAreOwn(jobs: seq<FillJob>, found: map<TweetId, seq<RawSafetyLabel>>, job: FillJob, place: Place,
                          reread: Option<seq<RawSafetyLabel>>, i: nat)
    requires Distinct(JobIds(jobs)) && (if place == InBatch then OnlyJob(jobs, job) else NoJob(jobs, job.tweetId))
    requires place == InBatch && job.labels.Reread? ==>
               reread == if job.tweetId in found then Some(found[job.tweetId]) else None
    requires i < |BuildWrites(jobs, found)| && BuildWrites(jobs, found)[i].0 == job.tweetId
    ensures place == InBatch && OwnBytes(job, reread, BuildWrites(jobs, found)[i].1)
  {
    var write := BuildWrites(jobs, found)[i];
    BuildWritesExact(jobs, found, write);
    var j :| 0 <= j < |jobs| && IsWriteOf(jobs[j], found, write);
    assert jobs[j] in jobs;
  }

  lemma BuildGuards(decoders: Decoders, s: State, job: FillJob, place: Place, entry: Option<Bytes>,
                    reread: Option<seq<RawSafetyLabel>>)
    requires Locked(s, job, place, entry, reread) && Enabled(decoders, s, Build)
    ensures StaysGuarded(decoders, s, job, place, entry, reread, Build)
  {
    var Scanning(jobs, _, found) := s.writer;
    BatchIsDistinct(s);
    forall i | 0 <= i < |BuildWrites(jobs, found)| && BuildWrites(jobs, found)[i].0 == job.tweetId
      ensures place == InBatch && OwnBytes(job, reread, BuildWrites(jobs, found)[i].1)
    {
      BuiltWritesAreOwn(jobs, found, job, place, reread, i);
    }
  }

  /** Making a write of the batch, for the job's post or for another. */
  lemma WriteGuards(ids: seq<TweetId>, writes: seq<(TweetId, Bytes)>, current: Option<Bytes>, job: FillJob,
                    place: Place, entry: Option<Bytes>, reread: Option<seq<RawSafetyLabel>>, i: nat, stored: bool)
    requires Guarded(Writing(ids, writes), current, job, place, entry, reread) && WritesOk(Writing(ids, writes))
    requires i < |writes| && (job.tweetId in ids ==> place == Built)
    ensures Guarded(Writing(ids, writes[..i] + writes[i + 1..]),
                    if stored && writes[i].0 == job.tweetId then Some(writes[i].1) else current,
                    job, place, entry, reread)
  {
    var writes' := writes[..i] + writes[i + 1..];
    assert forall j :: 0 <= j < |writes'| ==> writes'[j] == writes[if j < i then j else j + 1];
    WriteLeaves(ids, writes, job.tweetId, i);
    if writes[i].0 == job.tweetId {
      assert place == Built;
    }
  }

  /** Which posts still have a write once write `i` has been made. */
  lemma WriteLeaves(ids: seq<TweetId>, writes: seq<(TweetId, Bytes)>, id: TweetId, i: nat)
    requires WritesOk(Writing(ids, writes)) && i < |writes|
    ensures HasWrite(Writing(ids, writes[..i] + writes[i + 1..]), id) <==>
            (HasWrite(Writing(ids, writes), id) && writes[i].0 != id)
  {
    var writes' := writes[..i] + writes[i + 1..];
    assert forall j :: 0 <= j < |writes'| ==> writes'[j] == writes[if j < i then j else j + 1];
    if j :| 0 <= j < |writes| && writes[j].0 == id && j != i {
      assert writes'[if j < i then j else j - 1] == writes[j];
    }
  }

  /** A step of the tasks or the environment leaves the writer alone, and the entry
      too unless it removes or replaces it. */
  lemma OtherStepGuards(decoders: Decoders, s: State, job: FillJob, place: Place, entry: Option<Bytes>,
                        reread: Option<seq<RawSafetyLabel>>, step: Step)
    requires Guarded(s.writer, EntryAt(s, job.tweetId), job, place, entry, reread) && Enabled(decoders, s, step)
    requires !step.Take? && !step.Ask? && !step.Build? && !step.Write? && !step.Finish?
    ensures StaysGuarded(decoders, s, job, place, entry, reread, step)
  {
    var s', place' := Apply(decoders, s, step), PlaceAfter(s, job, place, step);
    var entry' := EntryAfter(entry, step, job.tweetId);
    OtherStepKeeps(decoders, s, job.tweetId, step);
    GuardMoves(s.writer, EntryAt(s, job.tweetId), EntryAt(s', job.tweetId), job, place, place', entry, entry', reread);
  }

  lemma GuardMoves(writer: Writer, current: Option<Bytes>, current': Option<Bytes>, job: FillJob, place: Place,
                   place': Place,
                   entry: Option<Bytes>, entry': Option<Bytes>, reread: Option<seq<RawSafetyLabel>>)
    requires Guarded(writer, current, job, place, entry, reread)
    requires place' == place || (place.Sending? && (place'.Queued? || place'.Refused?))
    requires (current' == current && entry' == entry) || current' == entry'
    ensures Guarded(writer, current', job, place', entry', reread)
  {
  }

  lemma OtherStepKeeps(decoders: Decoders, s: State, id: TweetId, step: Step)
    requires Enabled(decoders, s, step)
    requires !step.Take? && !step.Ask? && !step.Build? && !step.Write? && !step.Finish?
    ensures var s' := Apply(decoders, s, step);
            s'.writer == s.writer && EntryAt(s', id) == EntryAfter(EntryAt(s, id), step, id)
  {
  }

  lemma WriteStepGuards(decoders: Decoders, s: State, job: FillJob, place: Place, entry: Option<Bytes>,
                        reread: Option<seq<RawSafetyLabel>>, i: nat, stored: bool)
    requires Guarded(s.writer, EntryAt(s, job.tweetId), job, place, entry, reread) && WritesOk(s.writer)
    requires Enabled(decoders, s, Write(i, stored)) && (job.tweetId in s.writer.ids ==> place == Built)
    ensures StaysGuarded(decoders, s, job, place, entry, reread, Write(i, stored))
  {
    var Writing(ids, writes) := s.writer;
    WriteGuards(ids, writes, EntryAt(s, job.tweetId), job, place, entry, reread, i, stored);
  }

  lemma StepGuards(decoders: Decoders, s: State, job: FillJob, place: Place, entry: Option<Bytes>,
                   reread: Option<seq<RawSafetyLabel>>, step: Step)
    requires Locked(s, job, place, entry, reread) && Enabled(decoders, s, step)
    requires job.tweetId in Apply(decoders, s, step).pending
    ensures StaysGuarded(decoders, s, job, place, entry, reread, step)
  {
    match step {
      case Ask(id, answered) => AskGuards(decoders, s, job, place, entry, reread, id, answered);
      case Build => BuildGuards(decoders, s, job, place, entry, reread);
      case Write(i, stored) => WriteStepGuards(decoders, s, job, place, entry, reread, i, stored);
      case Take(_) => TakeOrFinishGuards(decoders, s, job, place, entry, reread, step);
      case Finish => TakeOrFinishGuards(decoders, s, job, place, entry, reread, step);
      case _ => OtherStepGuards(decoders, s, job, place, entry, reread, step);
    }
  }

  lemma StepKeepsLock(decoders: Decoders, s: State, job: FillJob, place: Place, entry: Option<Bytes>,
                      reread: Option<seq<RawSafetyLabel>>, step: Step)
    requires Locked(s, job, place, entry, reread) && Enabled(decoders, s, step)
    requires job.tweetId in Apply(decoders, s, step).pending
    ensures Locked(Apply(decoders, s, step), job, PlaceAfter(s, job, place, step),
                   EntryAfter(entry, step, job.tweetId), RereadAfter(s, reread, step, job.tweetId))
  {
    StaysExclusive(decoders, s, job, place, step);
    StepGuards(decoders, s, job, place, entry, reread, step);
  }

  lemma TakeOrFinishGuards(decoders: Decoders, s: State, job: FillJob, place: Place, entry: Option<Bytes>,
                           reread: Option<seq<RawSafetyLabel>>, step: Step)
    requires Locked(s, job, place, entry, reread) && Enabled(decoders, s, step) && (step.Take? || step.Finish?)
    requires job.tweetId in Apply(decoders, s, step).pending
    ensures StaysGuarded(decoders, s, job, place, entry, reread, step)
  {
  }
}
