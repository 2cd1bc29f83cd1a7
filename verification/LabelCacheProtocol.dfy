/** The label cache and everything that touches it, as one step system:
    lookups and shadow passes (tasks) that read the cache and scan Manhattan at
    times of their own, `fill` calls that race for the pending set and the
    bounded queue, the writer that drains the queue in batches, the hot-key
    cache in front, and an environment that moves the clock, changes Manhattan
    and evicts or invalidates entries at any moment.

    The label cache is remote and shared: `OtherServer` is a store by anyone else,
    another server or an earlier process or a store of this one that was given up
    for failed and is applied late. `Servers` shows that this is what the stores of
    servers that all follow the protocol are to each other. */
module LabelCacheProtocol {
  import opened Basics
  import opened Labels
  import opened LabelEntry
  import opened Manhattan

  const FILL_QUEUE_KEYS: nat := 10_000
  const FILL_BATCH_KEYS: nat := 100
  const HOT_TTL_MS: nat := 10_000

  /** A lookup, with the shadow pass it may spawn, which keeps its context.
      `unsent` are the jobs of its current `fill` call that are marked pending
      and not yet sent; `dropped` are those the queue refused. */
  datatype Task = Task(
    context: ReadContext,
    seen: map<TweetId, EntryRead>,
    scans: map<TweetId, seq<RawSafetyLabel>>,
    unsent: seq<FillJob>,
    dropped: seq<TweetId>)

  datatype Writer =
    | Idle
    | Scanning(jobs: seq<FillJob>, asked: set<TweetId>, found: map<TweetId, seq<RawSafetyLabel>>)
    | Writing(ids: seq<TweetId>, writes: seq<(TweetId, Bytes)>)

  /** A hot-key entry: what a lookup begun in `fetched` answered at `insertedAtMs`. */
  datatype HotEntry = HotEntry(labels: LabelMap, insertedAtMs: U64, fetched: ReadContext)

  datatype State = State(
    nowMs: U64,
    history: History,
    cache: map<TweetId, Bytes>,
    hot: map<TweetId, HotEntry>,
    pending: set<TweetId>,
    queue: seq<FillJob>,
    writer: Writer,
    tasks: seq<Task>)

  datatype Step =
    | Tick(nowMs: U64)
    | ManhattanWrite(id: TweetId, items: seq<RawSafetyLabel>)
    | Remove(id: TweetId)
    | OtherServer(id: TweetId, fill: Fill, items: seq<RawSafetyLabel>)
    | HotRemove(id: TweetId)
    | Begin(switches: Switches)
    | See(task: nat, id: TweetId, answered: bool)
    | Scan(task: nat, id: TweetId)
    | BeginFill(task: nat, jobs: seq<FillJob>)
    | Send(task: nat)
    | EndFill(task: nat)
    | Backfill(task: nat, id: TweetId, labels: LabelMap)
    | Take(count: nat)
    | Ask(id: TweetId, answered: bool)
    | Build
    | Write(index: nat, stored: bool)
    | Finish

  ghost function Init(nowMs: U64): State {
    State(nowMs, [], map[], map[], {}, [], Idle, [])
  }

  // ---- What the steps do ----

  function JobIds(jobs: seq<FillJob>): (ids: seq<TweetId>)
    ensures |ids| == |jobs|
    ensures forall i :: 0 <= i < |jobs| ==> ids[i] == jobs[i].tweetId
  {
    seq(|jobs|, i requires 0 <= i < |jobs| => jobs[i].tweetId)
  }

  /** Marks jobs pending in order; only a job that marks its id is kept. */
  function Admit(jobs: seq<FillJob>, pending: set<TweetId>): (r: (seq<FillJob>, set<TweetId>))
    ensures |r.0| <= |jobs|
  {
    if jobs == [] then ([], pending)
    else if jobs[0].tweetId in pending then Admit(jobs[1..], pending)
    else
      var (unsent, marked) := Admit(jobs[1..], pending + {jobs[0].tweetId});
      ([jobs[0]] + unsent, marked)
  }

  /** The writes of a batch; a reread job takes its scan out of the results. */
  function BuildWrites(jobs: seq<FillJob>, found: map<TweetId, seq<RawSafetyLabel>>): seq<(TweetId, Bytes)> {
    if jobs == [] then [] else
    var FillJob(id, fill, labels) := jobs[0];
    match labels
    case Scanned(items) => [(id, EncodeEntry(fill, items))] + BuildWrites(jobs[1..], found)
    case Reread =>
      if id in found then [(id, EncodeEntry(fill, found[id]))] + BuildWrites(jobs[1..], found - {id})
      else BuildWrites(jobs[1..], found)
  }

  ghost predicate IsReread(jobs: seq<FillJob>, id: TweetId) {
    exists i :: 0 <= i < |jobs| && jobs[i].tweetId == id && jobs[i].labels.Reread?
  }

  /** The labels a task answers for a post: those of its hit, or all those of
      the items it scanned. */
  ghost predicate Answers(decoders: Decoders, task: Task, id: TweetId, labels: LabelMap) {
    || (id in task.seen && task.seen[id].Hit? && labels == IntoLabels(task.seen[id].envelope))
    || (id in task.scans && LabelsOf(decoders, task.scans[id]) == Some(labels))
  }

  ghost predicate Enabled(decoders: Decoders, s: State, step: Step) {
    match step
    case Tick(nowMs) => s.nowMs <= nowMs
    case ManhattanWrite(_, _) => true
    case Remove(_) => true
    case OtherServer(id, fill, items) =>
      && LabelsOf(decoders, items).Some? && fill.filledAtMs <= s.nowMs
      && HeldWithin(s.history, id, items, fill.filledAtMs, s.nowMs)
    case HotRemove(_) => true
    case Begin(_) => true
    case See(k, id, _) => k < |s.tasks| && id !in s.tasks[k].seen
    case Scan(k, id) => k < |s.tasks| && LabelsOf(decoders, Current(s.history, id)).Some?
    case BeginFill(k, jobs) =>
      && k < |s.tasks| && s.tasks[k].unsent == [] && s.tasks[k].dropped == []
      && forall i :: 0 <= i < |jobs| ==>
           Justified(jobs[i], s.tasks[k].context, s.tasks[k].seen, s.tasks[k].scans)
    case Send(k) => k < |s.tasks| && s.tasks[k].unsent != []
    case EndFill(k) => k < |s.tasks| && s.tasks[k].unsent == []
    case Backfill(k, id, labels) => k < |s.tasks| && Answers(decoders, s.tasks[k], id, labels)
    case Take(count) => s.writer.Idle? && 1 <= count <= |s.queue| && count <= FILL_BATCH_KEYS
    case Ask(id, answered) =>
      && s.writer.Scanning? && IsReread(s.writer.jobs, id) && id !in s.writer.asked
      && (answered ==> LabelsOf(decoders, Current(s.history, id)).Some?)
    case Build =>
      && s.writer.Scanning?
      && forall i :: 0 <= i < |s.writer.jobs| && s.writer.jobs[i].labels.Reread? ==>
           s.writer.jobs[i].tweetId in s.writer.asked
    case Write(i, _) => s.writer.Writing? && i < |s.writer.writes|
    case Finish => s.writer.Writing? && s.writer.writes == []
  }

  ghost function Apply(decoders: Decoders, s: State, step: Step): State
    requires Enabled(decoders, s, step)
  {
    match step
    case Tick(nowMs) => s.(nowMs := nowMs)
    case ManhattanWrite(id, items) => s.(history := s.history + [Change(s.nowMs, id, items)])
    case Remove(id) => s.(cache := s.cache - {id})
    case OtherServer(id, fill, items) => s.(cache := s.cache[id := EncodeEntry(fill, items)])
    case HotRemove(id) => s.(hot := s.hot - {id})
    case Begin(switches) =>
      s.(tasks := s.tasks + [Task(ReadContext(s.nowMs, switches), map[], map[], [], [])])
    case See(k, id, answered) =>
      var task := s.tasks[k];
      var reply := if !answered then Failure else if id in s.cache then Stored(s.cache[id]) else Absent;
      var read := ReadEntry(decoders, reply, task.context);
      s.(tasks := s.tasks[k := task.(seen := task.seen[id := read])])
    case Scan(k, id) =>
      var task := s.tasks[k];
      s.(tasks := s.tasks[k := task.(scans := task.scans[id := Current(s.history, id)])])
    case BeginFill(k, jobs) =>
      var (unsent, marked) := Admit(jobs, s.pending);
      s.(pending := marked, tasks := s.tasks[k := s.tasks[k].(unsent := unsent)])
    case Send(k) =>
      var task := s.tasks[k];
      var job, rest := task.unsent[0], task.unsent[1..];
      if |s.queue| < FILL_QUEUE_KEYS then
        s.(queue := s.queue + [job], tasks := s.tasks[k := task.(unsent := rest)])
      else
        s.(tasks := s.tasks[k := task.(unsent := rest, dropped := task.dropped + [job.tweetId])])
    case EndFill(k) =>
      var task := s.tasks[k];
      s.(pending := s.pending - (set id | id in task.dropped), tasks := s.tasks[k := task.(dropped := [])])
    case Backfill(k, id, labels) =>
      s.(hot := s.hot[id := HotEntry(labels, s.nowMs, s.tasks[k].context)])
    case Take(count) => s.(queue := s.queue[count..], writer := Scanning(s.queue[..count], {}, map[]))
    case Ask(id, answered) =>
      var Scanning(jobs, asked, found) := s.writer;
      var found' := if answered then found[id := Current(s.history, id)] else found;
      s.(writer := Scanning(jobs, asked + {id}, found'))
    case Build => s.(writer := Writing(JobIds(s.writer.jobs), BuildWrites(s.writer.jobs, s.writer.found)))
    case Write(i, stored) =>
      var Writing(ids, writes) := s.writer;
      var (id, bytes) := writes[i];
      s.(writer := Writing(ids, writes[..i] + writes[i + 1..]),
         cache := if stored then s.cache[id := bytes] else s.cache)
    case Finish => s.(pending := s.pending - (set id | id in s.writer.ids), writer := Idle)
  }

  /** The state after a run of steps, if every step was enabled. */
  ghost function Run(decoders: Decoders, start: U64, steps: seq<Step>): Option<State> {
    if steps == [] then Some(Init(start)) else
    var last := steps[|steps| - 1];
    match Run(decoders, start, steps[..|steps| - 1])
    case None => None
    case Some(s) => if Enabled(decoders, s, last) then Some(Apply(decoders, s, last)) else None
  }

  /** The state after steps taken from `s`, if every step was enabled. */
  ghost function RunFrom(decoders: Decoders, s: State, steps: seq<Step>): Option<State>
    decreases |steps|
  {
    if steps == [] then Some(s)
    else if Enabled(decoders, s, steps[0]) then RunFrom(decoders, Apply(decoders, s, steps[0]), steps[1..])
    else None
  }

  lemma RunFromOne(decoders: Decoders, s: State, step: Step, rest: seq<Step>)
    requires Enabled(decoders, s, step)
    ensures RunFrom(decoders, s, [step] + rest) == RunFrom(decoders, Apply(decoders, s, step), rest)
  {
    assert ([step] + rest)[1..] == rest;
  }

  lemma {:induction false} RunFromConcat(decoders: Decoders, s: State, a: seq<Step>, b: seq<Step>)
    requires RunFrom(decoders, s, a).Some?
    ensures RunFrom(decoders, s, a + b) == RunFrom(decoders, RunFrom(decoders, s, a).value, b)
    decreases |a|
  {
    if a == [] {
      assert a + b == b;
    } else {
      assert (a + b)[1..] == a[1..] + b;
      RunFromConcat(decoders, Apply(decoders, s, a[0]), a[1..], b);
    }
  }

  lemma {:induction false} RunSnoc(decoders: Decoders, start: U64, steps: seq<Step>, step: Step)
    requires Run(decoders, start, steps).Some?
    ensures var s := Run(decoders, start, steps).value;
            Run(decoders, start, steps + [step]) ==
            if Enabled(decoders, s, step) then Some(Apply(decoders, s, step)) else None
  {
    assert (steps + [step])[..|steps|] == steps;
  }

  /** A run followed by more steps is a run. */
  lemma {:induction false} RunThen(decoders: Decoders, start: U64, steps: seq<Step>, rest: seq<Step>)
    requires Run(decoders, start, steps).Some?
    ensures Run(decoders, start, steps + rest) == RunFrom(decoders, Run(decoders, start, steps).value, rest)
    decreases |rest|
  {
    if rest == [] {
      assert steps + rest == steps;
    } else {
      var more := steps + [rest[0]];
      assert more + rest[1..] == steps + rest;
      RunSnoc(decoders, start, steps, rest[0]);
      if Run(decoders, start, more).Some? {
        RunThen(decoders, start, more, rest[1..]);
      } else {
        RunStops(decoders, start, more, rest[1..]);
      }
    }
  }

  /** What cannot be run cannot be run further. */
  lemma {:induction false} RunStops(decoders: Decoders, start: U64, steps: seq<Step>, rest: seq<Step>)
    requires Run(decoders, start, steps).None?
    ensures Run(decoders, start, steps + rest).None?
    decreases |rest|
  {
    if rest == [] {
      assert steps + rest == steps;
    } else {
      assert (steps + rest)[..|steps + rest| - 1] == steps + rest[..|rest| - 1];
      RunStops(decoders, start, steps, rest[..|rest| - 1]);
    }
  }

  /** Every beginning of a run is a run. */
  lemma RunPrefix(decoders: Decoders, start: U64, steps: seq<Step>, n: nat)
    requires Run(decoders, start, steps).Some? && n <= |steps|
    ensures Run(decoders, start, steps[..n]).Some?
  {
    assert steps[..n] + steps[n..] == steps;
    if Run(decoders, start, steps[..n]).None? {
      RunStops(decoders, start, steps[..n], steps[n..]);
    }
  }

  /** The state of a run after its first `n` steps. */
  ghost function StateAt(decoders: Decoders, start: U64, steps: seq<Step>, n: nat): State
    requires Run(decoders, start, steps).Some? && n <= |steps|
  {
    RunPrefix(decoders, start, steps, n);
    Run(decoders, start, steps[..n]).value
  }

  /** Each step of a run was enabled, and made the next state. */
  lemma StepOfRun(decoders: Decoders, start: U64, steps: seq<Step>, n: nat)
    requires Run(decoders, start, steps).Some? && n < |steps|
    ensures Enabled(decoders, StateAt(decoders, start, steps, n), steps[n])
    ensures StateAt(decoders, start, steps, n + 1) == Apply(decoders, StateAt(decoders, start, steps, n), steps[n])
  {
    RunPrefix(decoders, start, steps, n + 1);
    assert steps[..n + 1][..n] == steps[..n];
  }
}
