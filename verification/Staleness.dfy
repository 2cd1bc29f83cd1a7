/** Bounded staleness: in every run, whatever the label cache or the hot-key
    cache answers is what Manhattan held at a time that is recent enough. */
module Staleness {
  import opened Basics
  import opened Labels
  import opened LabelEntry
  import opened Manhattan
  import opened LabelCacheProtocol

  // ---- What is known of each thing in the system, at time `now` ----

  /** Items that decode, held by Manhattan at some time since `fill` was asked for. */
  ghost predicate Filled(decoders: Decoders, h: History, now: U64, id: TweetId, fill: Fill,
                         items: seq<RawSafetyLabel>)
  {
    && LabelsOf(decoders, items).Some?
    && fill.filledAtMs <= now
    && HeldWithin(h, id, items, fill.filledAtMs, now)
  }

  ghost predicate StoredOk(decoders: Decoders, h: History, now: U64, id: TweetId, bytes: Bytes) {
    exists fill, items :: bytes == EncodeEntry(fill, items) && Filled(decoders, h, now, id, fill, items)
  }

  ghost predicate JobOk(decoders: Decoders, h: History, now: U64, job: FillJob) {
    && job.fill.filledAtMs <= now
    && (job.labels.Scanned? ==> Filled(decoders, h, now, job.tweetId, job.fill, job.labels.items))
  }

  /** A hit shows the type-restricted labels Manhattan held at a time less than
      the entry's TTL before the read's own time. */
  ghost predicate HitOk(decoders: Decoders, h: History, now: U64, id: TweetId, context: ReadContext,
                        envelope: Envelope)
  {
    exists items ::
      && StatusOf(decoders, items) == Some(envelope.status)
      && HeldWithin(h, id, items, context.nowMs - TtlMs(envelope.status, context.switches) + 1, now)
  }

  ghost predicate ReadOk(decoders: Decoders, h: History, now: U64, id: TweetId, context: ReadContext,
                         read: EntryRead)
  {
    read.Hit? ==>
      && HitOk(decoders, h, now, id, context, read.envelope)
      && (read.refresh.Some? ==> read.refresh.value.filledAtMs <= now)
  }

  ghost predicate TaskOk(decoders: Decoders, h: History, now: U64, task: Task) {
    && task.context.nowMs <= now
    && (forall id :: id in task.seen ==> ReadOk(decoders, h, now, id, task.context, task.seen[id]))
    && (forall id :: id in task.scans ==>
          Filled(decoders, h, now, id, NewFill(task.context.nowMs), task.scans[id]))
    && (forall i :: 0 <= i < |task.unsent| ==> JobOk(decoders, h, now, task.unsent[i]))
  }

  ghost predicate WriterOk(decoders: Decoders, h: History, now: U64, writer: Writer) {
    match writer
    case Idle => true
    case Scanning(jobs, _, found) =>
      && (forall i :: 0 <= i < |jobs| ==> JobOk(decoders, h, now, jobs[i]))
      && (forall i :: 0 <= i < |jobs| && jobs[i].labels.Reread? && jobs[i].tweetId in found ==>
            Filled(decoders, h, now, jobs[i].tweetId, jobs[i].fill, found[jobs[i].tweetId]))
    case Writing(_, writes) =>
      forall i :: 0 <= i < |writes| ==> StoredOk(decoders, h, now, writes[i].0, writes[i].1)
  }

  /** The longest an entry may live under these switches. */
  ghost function AgeLimit(switches: Switches): U64 {
    Min(1000 * Max(60, Max(switches.foundTtlSecs, switches.notFoundTtlSecs)), U64_MAX)
  }

  /** All the labels of `items`, or those of known types. */
  ghost predicate Shows(decoders: Decoders, items: seq<RawSafetyLabel>, labels: LabelMap) {
    match LabelsOf(decoders, items)
    case None => false
    case Some(all) => labels == all || labels == KnownTypesOnly(decoders, all)
  }

  ghost predicate AnswerOk(decoders: Decoders, h: History, now: U64, id: TweetId, context: ReadContext,
                           labels: LabelMap)
  {
    exists items ::
      && Shows(decoders, items, labels)
      && HeldWithin(h, id, items, context.nowMs - AgeLimit(context.switches) + 1, now)
  }

  ghost predicate HotOk(decoders: Decoders, h: History, now: U64, id: TweetId, entry: HotEntry) {
    && entry.fetched.nowMs <= entry.insertedAtMs <= now
    && AnswerOk(decoders, h, now, id, entry.fetched, entry.labels)
  }

  ghost predicate Sound(decoders: Decoders, s: State) {
    && (forall i :: 0 <= i < |s.history| ==> s.history[i].at <= s.nowMs)
    && (forall id :: id in s.cache ==> StoredOk(decoders, s.history, s.nowMs, id, s.cache[id]))
    && (forall id :: id in s.hot ==> HotOk(decoders, s.history, s.nowMs, id, s.hot[id]))
    && (forall i :: 0 <= i < |s.queue| ==> JobOk(decoders, s.history, s.nowMs, s.queue[i]))
    && WriterOk(decoders, s.history, s.nowMs, s.writer)
    && (forall k :: 0 <= k < |s.tasks| ==> TaskOk(decoders, s.history, s.nowMs, s.tasks[k]))
  }

  // ---- All of it stays true as time passes and Manhattan changes ----

  ghost predicate Later(h: History, now: U64, h': History, now': U64) {
    Continues(h, h', now) && now <= now'
  }

  lemma FilledStays(decoders: Decoders, h: History, now: U64, h': History, now': U64, id: TweetId, fill: Fill,
                    items: seq<RawSafetyLabel>)
    requires Later(h, now, h', now') && Filled(decoders, h, now, id, fill, items)
    ensures Filled(decoders, h', now', id, fill, items)
  {
    HeldWithinStays(h, h', now, id, items, fill.filledAtMs, now, now');
  }

  lemma StoredStays(decoders: Decoders, h: History, now: U64, h': History, now': U64, id: TweetId, bytes: Bytes)
    requires Later(h, now, h', now') && StoredOk(decoders, h, now, id, bytes)
    ensures StoredOk(decoders, h', now', id, bytes)
  {
    var fill, items :| bytes == EncodeEntry(fill, items) && Filled(decoders, h, now, id, fill, items);
    FilledStays(decoders, h, now, h', now', id, fill, items);
  }

  lemma JobStays(decoders: Decoders, h: History, now: U64, h': History, now': U64, job: FillJob)
    requires Later(h, now, h', now') && JobOk(decoders, h, now, job)
    ensures JobOk(decoders, h', now', job)
  {
    if job.labels.Scanned? {
      FilledStays(decoders, h, now, h', now', job.tweetId, job.fill, job.labels.items);
    }
  }

  lemma HitStays(decoders: Decoders, h: History, now: U64, h': History, now': U64, id: TweetId,
                 context: ReadContext, envelope: Envelope)
    requires Later(h, now, h', now') && HitOk(decoders, h, now, id, context, envelope)
    ensures HitOk(decoders, h', now', id, context, envelope)
  {
    var from := context.nowMs - TtlMs(envelope.status, context.switches) + 1;
    var items :| StatusOf(decoders, items) == Some(envelope.status) && HeldWithin(h, id, items, from, now);
    HeldWithinStays(h, h', now, id, items, from, now, now');
  }

  lemma AnswerStays(decoders: Decoders, h: History, now: U64, h': History, now': U64, id: TweetId,
                    context: ReadContext, labels: LabelMap)
    requires Later(h, now, h', now') && AnswerOk(decoders, h, now, id, context, labels)
    ensures AnswerOk(decoders, h', now', id, context, labels)
  {
    var from := context.nowMs - AgeLimit(context.switches) + 1;
    var items :| Shows(decoders, items, labels) && HeldWithin(h, id, items, from, now);
    HeldWithinStays(h, h', now, id, items, from, now, now');
  }

  lemma TaskStays(decoders: Decoders, h: History, now: U64, h': History, now': U64, task: Task)
    requires Later(h, now, h', now') && TaskOk(decoders, h, now, task)
    ensures TaskOk(decoders, h', now', task)
  {
    forall id | id in task.seen ensures ReadOk(decoders, h', now', id, task.context, task.seen[id]) {
      if task.seen[id].Hit? {
        HitStays(decoders, h, now, h', now', id, task.context, task.seen[id].envelope);
      }
    }
    var fill := NewFill(task.context.nowMs);
    forall id | id in task.scans ensures Filled(decoders, h', now', id, fill, task.scans[id]) {
      FilledStays(decoders, h, now, h', now', id, fill, task.scans[id]);
    }
    forall i | 0 <= i < |task.unsent| ensures JobOk(decoders, h', now', task.unsent[i]) {
      JobStays(decoders, h, now, h', now', task.unsent[i]);
    }
  }

  lemma WriterStays(decoders: Decoders, h: History, now: U64, h': History, now': U64, writer: Writer)
    requires Later(h, now, h', now') && WriterOk(decoders, h, now, writer)
    ensures WriterOk(decoders, h', now', writer)
  {
    match writer {
      case Idle =>
      case Scanning(jobs, _, found) =>
        forall i | 0 <= i < |jobs|
          ensures JobOk(decoders, h', now', jobs[i])
          ensures jobs[i].labels.Reread? && jobs[i].tweetId in found ==>
                    Filled(decoders, h', now', jobs[i].tweetId, jobs[i].fill, found[jobs[i].tweetId])
        {
          JobStays(decoders, h, now, h', now', jobs[i]);
          if jobs[i].labels.Reread? && jobs[i].tweetId in found {
            FilledStays(decoders, h, now, h', now', jobs[i].tweetId, jobs[i].fill, found[jobs[i].tweetId]);
          }
        }
      case Writing(_, writes) =>
        forall i | 0 <= i < |writes| ensures StoredOk(decoders, h', now', writes[i].0, writes[i].1) {
          StoredStays(decoders, h, now, h', now', writes[i].0, writes[i].1);
        }
    }
  }

  lemma EnvironmentStep(decoders: Decoders, s: State, h': History, now': U64)
    requires Sound(decoders, s) && Later(s.history, s.nowMs, h', now')
    requires forall i :: 0 <= i < |h'| ==> h'[i].at <= now'
    ensures Sound(decoders, s.(history := h', nowMs := now'))
  {
    var h, now := s.history, s.nowMs;
    forall id | id in s.cache ensures StoredOk(decoders, h', now', id, s.cache[id]) {
      StoredStays(decoders, h, now, h', now', id, s.cache[id]);
    }
    forall id | id in s.hot ensures HotOk(decoders, h', now', id, s.hot[id]) {
      AnswerStays(decoders, h, now, h', now', id, s.hot[id].fetched, s.hot[id].labels);
    }
    forall i | 0 <= i < |s.queue| ensures JobOk(decoders, h', now', s.queue[i]) {
      JobStays(decoders, h, now, h', now', s.queue[i]);
    }
    WriterStays(decoders, h, now, h', now', s.writer);
    forall k | 0 <= k < |s.tasks| ensures TaskOk(decoders, h', now', s.tasks[k]) {
      TaskStays(decoders, h, now, h', now', s.tasks[k]);
    }
  }

  // ---- Each step keeps the system sound ----

  /** A live entry is filled less than its TTL before the read. */
  lemma LiveIsYoung(h: History, now: U64, id: TweetId, envelope: Envelope, items: seq<RawSafetyLabel>, t: U64,
                    context: ReadContext)
    requires IsLive(envelope, context) && envelope.fill.filledAtMs <= t <= now && Held(h, id, items, t)
    ensures HeldWithin(h, id, items, context.nowMs - TtlMs(envelope.status, context.switches) + 1, now)
  {
  }

  lemma StoredDecodes(decoders: Decoders, h: History, now: U64, id: TweetId, bytes: Bytes)
    returns (envelope: Envelope, items: seq<RawSafetyLabel>)
    requires StoredOk(decoders, h, now, id, bytes)
    ensures DecodeEnvelope(decoders, bytes) == Some(envelope) && bytes == EncodeEntry(envelope.fill, items)
    ensures StatusOf(decoders, items) == Some(envelope.status)
    ensures Filled(decoders, h, now, id, envelope.fill, items)
  {
    var fill;
    fill, items :| bytes == EncodeEntry(fill, items) && Filled(decoders, h, now, id, fill, items);
    EntryRoundTrip(decoders, fill, items);
    envelope := Envelope(fill, StatusOf(decoders, items).value);
  }

  /** Reading a sound entry: a hit is young, by the TTL judged at the read. */
  lemma ReadIsOk(decoders: Decoders, h: History, now: U64, id: TweetId, reply: CacheReply, context: ReadContext)
    requires reply.Stored? ==> StoredOk(decoders, h, now, id, reply.bytes)
    requires context.nowMs <= now
    ensures ReadOk(decoders, h, now, id, context, ReadEntry(decoders, reply, context))
  {
    if reply.Stored? {
      var envelope, items := StoredDecodes(decoders, h, now, id, reply.bytes);
      if IsLive(envelope, context) {
        var t: U64 :| envelope.fill.filledAtMs <= t <= now && Held(h, id, items, t);
        LiveIsYoung(h, now, id, envelope, items, t, context);
      }
    }
  }

  lemma ScanIsOk(decoders: Decoders, s: State, id: TweetId, fill: Fill)
    requires Sound(decoders, s) && fill.filledAtMs <= s.nowMs
    requires LabelsOf(decoders, Current(s.history, id)).Some?
    ensures Filled(decoders, s.history, s.nowMs, id, fill, Current(s.history, id))
  {
    CurrentIsHeld(s.history, id, s.nowMs);
  }

  lemma JustifiedIsOk(decoders: Decoders, h: History, now: U64, task: Task, job: FillJob)
    requires TaskOk(decoders, h, now, task)
    requires Justified(job, task.context, task.seen, task.scans)
    ensures JobOk(decoders, h, now, job)
  {
    assert ReadOk(decoders, h, now, job.tweetId, task.context, task.seen[job.tweetId]);
  }

  lemma {:induction false} AdmitKeepsJobs(decoders: Decoders, h: History, now: U64, jobs: seq<FillJob>,
                                          pending: set<TweetId>)
    requires forall i :: 0 <= i < |jobs| ==> JobOk(decoders, h, now, jobs[i])
    ensures forall job :: job in Admit(jobs, pending).0 ==> JobOk(decoders, h, now, job)
  {
    if jobs != [] {
      AdmitKeepsJobs(decoders, h, now, jobs[1..], pending);
      AdmitKeepsJobs(decoders, h, now, jobs[1..], pending + {jobs[0].tweetId});
    }
  }

  lemma {:induction false} BuiltWritesAreOk(decoders: Decoders, h: History, now: U64, jobs: seq<FillJob>,
                                            found: map<TweetId, seq<RawSafetyLabel>>)
    requires WriterOk(decoders, h, now, Scanning(jobs, {}, found))
    ensures forall write :: write in BuildWrites(jobs, found) ==> StoredOk(decoders, h, now, write.0, write.1)
  {
    if jobs != [] {
      var FillJob(id, fill, labels) := jobs[0];
      assert JobOk(decoders, h, now, jobs[0]);
      assert WriterOk(decoders, h, now, Scanning(jobs[1..], {}, found));
      BuiltWritesAreOk(decoders, h, now, jobs[1..], found);
      assert WriterOk(decoders, h, now, Scanning(jobs[1..], {}, found - {id}));
      BuiltWritesAreOk(decoders, h, now, jobs[1..], found - {id});
    }
  }

  lemma AnswersAreOk(decoders: Decoders, h: History, now: U64, task: Task, id: TweetId, labels: LabelMap)
    requires TaskOk(decoders, h, now, task) && Answers(decoders, task, id, labels)
    ensures AnswerOk(decoders, h, now, id, task.context, labels)
  {
    var from := task.context.nowMs - AgeLimit(task.context.switches) + 1;
    if id in task.scans && LabelsOf(decoders, task.scans[id]) == Some(labels) {
      var t: U64 :| task.context.nowMs <= t <= now && Held(h, id, task.scans[id], t);
      assert HeldWithin(h, id, task.scans[id], from, now);
      assert Shows(decoders, task.scans[id], labels);
    } else {
      var envelope := task.seen[id].envelope;
      assert ReadOk(decoders, h, now, id, task.context, task.seen[id]);
      var youngest := task.context.nowMs - TtlMs(envelope.status, task.context.switches) + 1;
      var items :| StatusOf(decoders, items) == Some(envelope.status) && HeldWithin(h, id, items, youngest, now);
      var t: U64 :| youngest <= t <= now && Held(h, id, items, t);
      assert HeldWithin(h, id, items, from, now);
      assert Shows(decoders, items, labels);
    }
  }

  /** `Sound` does not look at the pending set, and at each task by itself. */
  lemma TaskReplaced(decoders: Decoders, s: State, k: nat, task: Task, pending: set<TweetId>)
    requires Sound(decoders, s) && k < |s.tasks| && TaskOk(decoders, s.history, s.nowMs, task)
    ensures Sound(decoders, s.(tasks := s.tasks[k := task], pending := pending))
  {
  }

  lemma SeeIsSound(decoders: Decoders, s: State, k: nat, id: TweetId, answered: bool)
    requires Sound(decoders, s) && Enabled(decoders, s, See(k, id, answered))
    ensures Sound(decoders, Apply(decoders, s, See(k, id, answered)))
  {
    var task := s.tasks[k];
    assert TaskOk(decoders, s.history, s.nowMs, task);
    var reply := if !answered then Failure else if id in s.cache then Stored(s.cache[id]) else Absent;
    ReadIsOk(decoders, s.history, s.nowMs, id, reply, task.context);
    TaskReplaced(decoders, s, k, task.(seen := task.seen[id := ReadEntry(decoders, reply, task.context)]), s.pending);
  }

  lemma ScanIsSound(decoders: Decoders, s: State, k: nat, id: TweetId)
    requires Sound(decoders, s) && Enabled(decoders, s, Scan(k, id))
    ensures Sound(decoders, Apply(decoders, s, Scan(k, id)))
  {
    var task := s.tasks[k];
    assert TaskOk(decoders, s.history, s.nowMs, task);
    ScanIsOk(decoders, s, id, NewFill(task.context.nowMs));
    TaskReplaced(decoders, s, k, task.(scans := task.scans[id := Current(s.history, id)]), s.pending);
  }

  lemma BeginFillIsSound(decoders: Decoders, s: State, k: nat, jobs: seq<FillJob>)
    requires Sound(decoders, s) && Enabled(decoders, s, BeginFill(k, jobs))
    ensures Sound(decoders, Apply(decoders, s, BeginFill(k, jobs)))
  {
    var task := s.tasks[k];
    assert TaskOk(decoders, s.history, s.nowMs, task);
    forall i | 0 <= i < |jobs| ensures JobOk(decoders, s.history, s.nowMs, jobs[i]) {
      JustifiedIsOk(decoders, s.history, s.nowMs, task, jobs[i]);
    }
    AdmitKeepsJobs(decoders, s.history, s.nowMs, jobs, s.pending);
    var (unsent, marked) := Admit(jobs, s.pending);
    TaskReplaced(decoders, s, k, task.(unsent := unsent), marked);
  }

  lemma SendIsSound(decoders: Decoders, s: State, k: nat)
    requires Sound(decoders, s) && Enabled(decoders, s, Send(k))
    ensures Sound(decoders, Apply(decoders, s, Send(k)))
  {
    var s' := Apply(decoders, s, Send(k));
    assert TaskOk(decoders, s.history, s.nowMs, s.tasks[k]);
    assert JobOk(decoders, s.history, s.nowMs, s.tasks[k].unsent[0]);
    TaskReplaced(decoders, s, k, s'.tasks[k], s.pending);
  }

  lemma EndFillIsSound(decoders: Decoders, s: State, k: nat)
    requires Sound(decoders, s) && Enabled(decoders, s, EndFill(k))
    ensures Sound(decoders, Apply(decoders, s, EndFill(k)))
  {
    var s' := Apply(decoders, s, EndFill(k));
    assert TaskOk(decoders, s.history, s.nowMs, s.tasks[k]);
    TaskReplaced(decoders, s, k, s'.tasks[k], s'.pending);
  }

  lemma BackfillIsSound(decoders: Decoders, s: State, k: nat, id: TweetId, labels: LabelMap)
    requires Sound(decoders, s) && Enabled(decoders, s, Backfill(k, id, labels))
    ensures Sound(decoders, Apply(decoders, s, Backfill(k, id, labels)))
  {
    assert TaskOk(decoders, s.history, s.nowMs, s.tasks[k]);
    AnswersAreOk(decoders, s.history, s.nowMs, s.tasks[k], id, labels);
  }

  lemma AskIsSound(decoders: Decoders, s: State, id: TweetId, answered: bool)
    requires Sound(decoders, s) && Enabled(decoders, s, Ask(id, answered))
    ensures Sound(decoders, Apply(decoders, s, Ask(id, answered)))
  {
    var Scanning(jobs, _, _) := s.writer;
    forall i | answered && 0 <= i < |jobs| && jobs[i].tweetId == id
      ensures Filled(decoders, s.history, s.nowMs, id, jobs[i].fill, Current(s.history, id))
    {
      assert JobOk(decoders, s.history, s.nowMs, jobs[i]);
      ScanIsOk(decoders, s, id, jobs[i].fill);
    }
    assert WriterOk(decoders, s.history, s.nowMs, Apply(decoders, s, Ask(id, answered)).writer);
  }

  lemma BuildIsSound(decoders: Decoders, s: State)
    requires Sound(decoders, s) && Enabled(decoders, s, Build)
    ensures Sound(decoders, Apply(decoders, s, Build))
  {
    BuiltWritesAreOk(decoders, s.history, s.nowMs, s.writer.jobs, s.writer.found);
  }

  lemma WriteIsSound(decoders: Decoders, s: State, i: nat, stored: bool)
    requires Sound(decoders, s) && Enabled(decoders, s, Write(i, stored))
    ensures Sound(decoders, Apply(decoders, s, Write(i, stored)))
  {
    assert StoredOk(decoders, s.history, s.nowMs, s.writer.writes[i].0, s.writer.writes[i].1);
    assert WriterOk(decoders, s.history, s.nowMs, Apply(decoders, s, Write(i, stored)).writer);
  }

  lemma OtherServerIsSound(decoders: Decoders, s: State, id: TweetId, fill: Fill, items: seq<RawSafetyLabel>)
    requires Sound(decoders, s) && Enabled(decoders, s, OtherServer(id, fill, items))
    ensures Sound(decoders, Apply(decoders, s, OtherServer(id, fill, items)))
  {
    assert Filled(decoders, s.history, s.nowMs, id, fill, items);
  }

  lemma TakeIsSound(decoders: Decoders, s: State, count: nat)
    requires Sound(decoders, s) && Enabled(decoders, s, Take(count))
    ensures Sound(decoders, Apply(decoders, s, Take(count)))
  {
    assert WriterOk(decoders, s.history, s.nowMs, Scanning(s.queue[..count], {}, map[]));
  }

  /** The steps that only take something away, or start a task with nothing. */
  lemma PlainStepIsSound(decoders: Decoders, s: State, step: Step)
    requires Sound(decoders, s) && Enabled(decoders, s, step)
    requires step.Remove? || step.HotRemove? || step.Begin? || step.Finish?
    ensures Sound(decoders, Apply(decoders, s, step))
  {
  }

  lemma StepIsSound(decoders: Decoders, s: State, step: Step)
    requires Sound(decoders, s) && Enabled(decoders, s, step)
    ensures Sound(decoders, Apply(decoders, s, step))
  {
    match step {
      case Tick(nowMs) => EnvironmentStep(decoders, s, s.history, nowMs);
      case ManhattanWrite(id, items) =>
        EnvironmentStep(decoders, s, s.history + [Change(s.nowMs, id, items)], s.nowMs);
      case OtherServer(id, fill, items) => OtherServerIsSound(decoders, s, id, fill, items);
      case See(k, id, answered) => SeeIsSound(decoders, s, k, id, answered);
      case Scan(k, id) => ScanIsSound(decoders, s, k, id);
      case BeginFill(k, jobs) => BeginFillIsSound(decoders, s, k, jobs);
      case Send(k) => SendIsSound(decoders, s, k);
      case EndFill(k) => EndFillIsSound(decoders, s, k);
      case Backfill(k, id, labels) => BackfillIsSound(decoders, s, k, id, labels);
      case Take(count) => TakeIsSound(decoders, s, count);
      case Ask(id, answered) => AskIsSound(decoders, s, id, answered);
      case Build => BuildIsSound(decoders, s);
      case Write(i, stored) => WriteIsSound(decoders, s, i, stored);
      case _ => PlainStepIsSound(decoders, s, step);
    }
  }

  lemma {:induction false} RunIsSound(decoders: Decoders, start: U64, steps: seq<Step>)
    requires Run(decoders, start, steps).Some?
    ensures Sound(decoders, Run(decoders, start, steps).value)
  {
    if steps != [] {
      var n := |steps| - 1;
      RunIsSound(decoders, start, steps[..n]);
      StepIsSound(decoders, Run(decoders, start, steps[..n]).value, steps[n]);
    }
  }

  // ---- What callers see ----

  /** Every stored entry decodes, to the labels of items that Manhattan held at
      some time at or after the entry's own fill time. */
  lemma StoredEntriesAreManhattanStates(decoders: Decoders, start: U64, steps: seq<Step>, id: TweetId)
    requires Run(decoders, start, steps).Some?
    requires id in Run(decoders, start, steps).value.cache
    ensures var s := Run(decoders, start, steps).value;
            exists fill, items ::
              && s.cache[id] == EncodeEntry(fill, items)
              && StatusOf(decoders, items).Some?
              && DecodeEnvelope(decoders, s.cache[id]) == Some(Envelope(fill, StatusOf(decoders, items).value))
              && HeldWithin(s.history, id, items, fill.filledAtMs, s.nowMs)
  {
    RunIsSound(decoders, start, steps);
    var s := Run(decoders, start, steps).value;
    assert StoredOk(decoders, s.history, s.nowMs, id, s.cache[id]);
    var envelope, items := StoredDecodes(decoders, s.history, s.nowMs, id, s.cache[id]);
  }

  /** What an entry shows of the items that Manhattan held for its post at `t`: nothing
      for no items, otherwise each label of a known type; and how old that may be when
      it is read, by the switch for posts with or without labels, at least a minute. */
  ghost predicate YoungHit(decoders: Decoders, h: History, now: U64, id: TweetId, context: ReadContext,
                           envelope: Envelope, items: seq<RawSafetyLabel>, t: U64)
  {
    && Held(h, id, items, t) && t <= now
    && (if items == [] then envelope.status.NotFound? else ShowsKnownTypes(decoders, items, envelope))
    && context.nowMs - t <
       Min(1000 * Max(if items == [] then context.switches.notFoundTtlSecs else context.switches.foundTtlSecs, 60),
           U64_MAX)
  }

  lemma HitIsYoung(decoders: Decoders, h: History, now: U64, id: TweetId, context: ReadContext, envelope: Envelope)
    returns (items: seq<RawSafetyLabel>, t: U64)
    requires HitOk(decoders, h, now, id, context, envelope)
    ensures YoungHit(decoders, h, now, id, context, envelope, items, t)
  {
    var from := context.nowMs - TtlMs(envelope.status, context.switches) + 1;
    items :| StatusOf(decoders, items) == Some(envelope.status) && HeldWithin(h, id, items, from, now);
    t :| from <= t <= now && Held(h, id, items, t);
    if items != [] {
      var all := LabelsOf(decoders, items).value;
      forall kind ensures kind in KnownTypesOnly(decoders, all) <==> kind in all && kind in decoders.knownTypes {
        TypeFilterIsExact(decoders, all, kind);
      }
    }
  }

  /** Every hit of the label cache, in every run, is young: it shows what Manhattan held
      less than the TTL in force, at least 60 s, before the time the lookup began. */
  lemma HitsAreYoung(decoders: Decoders, start: U64, steps: seq<Step>, k: nat, id: TweetId)
    returns (items: seq<RawSafetyLabel>, t: U64)
    requires Run(decoders, start, steps).Some?
    requires k < |Run(decoders, start, steps).value.tasks|
    requires id in Run(decoders, start, steps).value.tasks[k].seen
    requires Run(decoders, start, steps).value.tasks[k].seen[id].Hit?
    ensures var s := Run(decoders, start, steps).value;
            YoungHit(decoders, s.history, s.nowMs, id, s.tasks[k].context, s.tasks[k].seen[id].envelope, items, t)
  {
    RunIsSound(decoders, start, steps);
    var s := Run(decoders, start, steps).value;
    assert TaskOk(decoders, s.history, s.nowMs, s.tasks[k]);
    assert ReadOk(decoders, s.history, s.nowMs, id, s.tasks[k].context, s.tasks[k].seen[id]);
    items, t := HitIsYoung(decoders, s.history, s.nowMs, id, s.tasks[k].context, s.tasks[k].seen[id].envelope);
  }

  /** The post's live labels as of `t`, judged at `nowMs`: each of them, or each of a
      known type, and nothing else. */
  ghost predicate LiveLabelsOf(decoders: Decoders, h: History, id: TweetId, t: U64, nowMs: I64, answer: LabelMap) {
    exists items ::
      && Held(h, id, items, t)
      && LabelsOf(decoders, items).Some?
      && (|| IsLivePart(decoders, LabelsOf(decoders, items).value, nowMs, false, answer)
          || IsLivePart(decoders, LabelsOf(decoders, items).value, nowMs, true, answer))
  }

  /** Every answer a lookup gives, from a hit or from its own Manhattan scan, is
      a Manhattan state less than the age limit older than the lookup. */
  lemma LookupAnswersAreYoung(decoders: Decoders, start: U64, steps: seq<Step>, k: nat, id: TweetId,
                              labels: LabelMap, nowMs: I64)
    requires Run(decoders, start, steps).Some?
    requires k < |Run(decoders, start, steps).value.tasks|
    requires Answers(decoders, Run(decoders, start, steps).value.tasks[k], id, labels)
    ensures var s := Run(decoders, start, steps).value;
            var context := s.tasks[k].context;
            exists t: U64 ::
              && t <= s.nowMs
              && context.nowMs - t < AgeLimit(context.switches)
              && LiveLabelsOf(decoders, s.history, id, t, nowMs, DropExpiredLabels(labels, nowMs))
  {
    RunIsSound(decoders, start, steps);
    var s := Run(decoders, start, steps).value;
    assert TaskOk(decoders, s.history, s.nowMs, s.tasks[k]);
    AnswersAreOk(decoders, s.history, s.nowMs, s.tasks[k], id, labels);
    var t := AnswerIsLiveState(decoders, s.history, s.nowMs, id, s.tasks[k].context, labels, nowMs);
  }

  lemma AnswerIsLiveState(decoders: Decoders, h: History, now: U64, id: TweetId, context: ReadContext,
                          labels: LabelMap, nowMs: I64) returns (t: U64)
    requires AnswerOk(decoders, h, now, id, context, labels)
    ensures t <= now && context.nowMs - t < AgeLimit(context.switches)
    ensures LiveLabelsOf(decoders, h, id, t, nowMs, DropExpiredLabels(labels, nowMs))
  {
    var from := context.nowMs - AgeLimit(context.switches) + 1;
    var items :| Shows(decoders, items, labels) && HeldWithin(h, id, items, from, now);
    t :| from <= t <= now && Held(h, id, items, t);
    var all := LabelsOf(decoders, items).value;
    FiltersCommute(decoders, all, nowMs);
    ExpiryFilterIsExact(decoders, all, nowMs);
  }

  /** Two-tier staleness: an answer served from the hot-key cache is the live
      part of a Manhattan state no older than the hot-key TTL, plus the entry's
      age limit, plus the time the lookup that fetched it took. */
  lemma HotAnswersAreYoung(decoders: Decoders, start: U64, steps: seq<Step>, id: TweetId, nowMs: I64)
    requires Run(decoders, start, steps).Some?
    requires id in Run(decoders, start, steps).value.hot
    requires Run(decoders, start, steps).value.nowMs <
             Run(decoders, start, steps).value.hot[id].insertedAtMs + HOT_TTL_MS
    ensures var s := Run(decoders, start, steps).value;
            var HotEntry(labels, insertedAtMs, fetched) := s.hot[id];
            exists t: U64 ::
              && t <= s.nowMs
              && s.nowMs - t < HOT_TTL_MS + AgeLimit(fetched.switches) + (insertedAtMs - fetched.nowMs)
              && LiveLabelsOf(decoders, s.history, id, t, nowMs, DropExpiredLabels(labels, nowMs))
  {
    RunIsSound(decoders, start, steps);
    var s := Run(decoders, start, steps).value;
    assert HotOk(decoders, s.history, s.nowMs, id, s.hot[id]);
    var HotEntry(labels, insertedAtMs, fetched) := s.hot[id];
    var t := AnswerIsLiveState(decoders, s.history, s.nowMs, id, fetched, labels, nowMs);
  }
}
