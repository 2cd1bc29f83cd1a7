/** Nothing stays pending for good. Every step by which a `fill` call or the writer
    goes on uses up some of a fixed amount of work, whatever the scans and the stores
    answer; only a new `fill` call adds to it; and when no such step is left to take,
    nothing is queued and nothing is pending. */
module PendingRelease {
  import opened Basics
  import opened Labels
  import opened LabelEntry
  import opened LabelCacheProtocol
  import opened PendingFills

  /** A step by which a `fill` call or the writer goes on; a `fill` call that dropped
      nothing has nothing to unmark. */
  ghost predicate GoesOn(decoders: Decoders, s: State, step: Step) {
    && Enabled(decoders, s, step)
    && (|| step.Send? || step.Take? || step.Ask? || step.Build? || step.Write? || step.Finish?
        || (step.EndFill? && s.tasks[step.task].dropped != []))
  }

  // ---- How much work is left ----

  ghost function TaskWork(task: Task): nat {
    6 * |task.unsent| + |task.dropped|
  }

  ghost function TasksWork(tasks: seq<Task>): nat {
    if tasks == [] then 0 else TasksWork(tasks[..|tasks| - 1]) + TaskWork(tasks[|tasks| - 1])
  }

  /** The reread jobs of a batch that are still to be scanned, by position. */
  ghost function Unasked(jobs: seq<FillJob>, asked: set<TweetId>): set<nat> {
    set i | 0 <= i < |jobs| && jobs[i].labels.Reread? && jobs[i].tweetId !in asked
  }

  ghost function WriterWork(writer: Writer): nat {
    match writer
    case Idle => 0
    case Scanning(jobs, asked, _) => 2 + |jobs| + |Unasked(jobs, asked)|
    case Writing(_, writes) => 1 + |writes|
  }

  ghost function Work(s: State): nat {
    TasksWork(s.tasks) + 5 * |s.queue| + WriterWork(s.writer)
  }

  lemma {:induction false} TasksWorkUpdate(tasks: seq<Task>, k: nat, task: Task)
    requires k < |tasks|
    ensures TasksWork(tasks[k := task]) + TaskWork(tasks[k]) == TasksWork(tasks) + TaskWork(task)
  {
    var n := |tasks| - 1;
    if k < n {
      assert tasks[k := task][..n] == tasks[..n][k := task];
      TasksWorkUpdate(tasks[..n], k, task);
    } else {
      assert tasks[k := task][..n] == tasks[..n];
    }
  }

  lemma {:induction false} BuildsNoMore(jobs: seq<FillJob>, found: map<TweetId, seq<RawSafetyLabel>>)
    ensures |BuildWrites(jobs, found)| <= |jobs|
  {
    if jobs != [] {
      BuildsNoMore(jobs[1..], found);
      BuildsNoMore(jobs[1..], found - {jobs[0].tweetId});
    }
  }

  lemma Positions(n: nat, part: set<nat>)
    requires forall i :: i in part ==> i < n
    ensures |part| <= n
    decreases n
  {
    if n > 0 {
      Positions(n - 1, part - {n - 1});
    }
  }

  lemma Fewer(less: set<nat>, more: set<nat>, i: nat)
    requires less <= more && i in more && i !in less
    ensures |less| < |more|
  {
    var others := more - less - {i};
    assert more == less + (others + {i});
  }

  lemma TakeUsesWork(decoders: Decoders, s: State, count: nat)
    requires Enabled(decoders, s, Take(count))
    ensures Work(Apply(decoders, s, Take(count))) < Work(s)
  {
    var jobs := s.queue[..count];
    Positions(count, Unasked(jobs, {}));
    assert |s.queue[count..]| == |s.queue| - count;
  }

  lemma AskUsesWork(decoders: Decoders, s: State, id: TweetId, answered: bool)
    requires Enabled(decoders, s, Ask(id, answered))
    ensures Work(Apply(decoders, s, Ask(id, answered))) < Work(s)
  {
    var Scanning(jobs, asked, _) := s.writer;
    var i :| 0 <= i < |jobs| && jobs[i].tweetId == id && jobs[i].labels.Reread?;
    Fewer(Unasked(jobs, asked + {id}), Unasked(jobs, asked), i);
  }

  lemma TaskStepUsesWork(decoders: Decoders, s: State, step: Step)
    requires GoesOn(decoders, s, step) && (step.Send? || step.EndFill?)
    ensures Work(Apply(decoders, s, step)) < Work(s)
  {
    TasksWorkUpdate(s.tasks, step.task, Apply(decoders, s, step).tasks[step.task]);
  }

  /** Every step that goes on uses up work, whatever is answered. */
  lemma GoingOnUsesWork(decoders: Decoders, s: State, step: Step)
    requires GoesOn(decoders, s, step)
    ensures Work(Apply(decoders, s, step)) < Work(s)
  {
    match step {
      case Send(_) => TaskStepUsesWork(decoders, s, step);
      case EndFill(_) => TaskStepUsesWork(decoders, s, step);
      case Take(count) => TakeUsesWork(decoders, s, count);
      case Ask(id, answered) => AskUsesWork(decoders, s, id, answered);
      case Build => BuildsNoMore(s.writer.jobs, s.writer.found);
      case _ =>
    }
  }

  /** No other step adds work, except a `fill` call. */
  lemma OthersAddNoWork(decoders: Decoders, s: State, step: Step)
    requires Enabled(decoders, s, step) && !GoesOn(decoders, s, step) && !step.BeginFill?
    ensures Work(Apply(decoders, s, step)) == Work(s)
  {
    var s' := Apply(decoders, s, step);
    if step.See? || step.Scan? || step.EndFill? {
      TasksWorkUpdate(s.tasks, step.task, s'.tasks[step.task]);
    } else if step.Begin? {
      assert s'.tasks[..|s.tasks|] == s.tasks;
    }
  }

  // ---- Every schedule releases what is pending ----

  /** How many of the steps go on with a fill. */
  ghost function Progress(decoders: Decoders, s: State, steps: seq<Step>): nat
    requires RunFrom(decoders, s, steps).Some?
    decreases |steps|
  {
    if steps == [] then 0 else
    (if GoesOn(decoders, s, steps[0]) then 1 else 0) + Progress(decoders, Apply(decoders, s, steps[0]), steps[1..])
  }

  lemma {:induction false} ProgressIsBounded(decoders: Decoders, s: State, steps: seq<Step>)
    requires RunFrom(decoders, s, steps).Some?
    requires forall i :: 0 <= i < |steps| ==> !steps[i].BeginFill?
    ensures Progress(decoders, s, steps) + Work(RunFrom(decoders, s, steps).value) <= Work(s)
    decreases |steps|
  {
    if steps != [] {
      if GoesOn(decoders, s, steps[0]) {
        GoingOnUsesWork(decoders, s, steps[0]);
      } else {
        OthersAddNoWork(decoders, s, steps[0]);
      }
      ProgressIsBounded(decoders, Apply(decoders, s, steps[0]), steps[1..]);
    }
  }

  lemma {:induction false} WorkingTask(tasks: seq<Task>) returns (k: nat)
    requires TasksWork(tasks) > 0
    ensures k < |tasks| && TaskWork(tasks[k]) > 0
  {
    var n := |tasks| - 1;
    if TaskWork(tasks[n]) > 0 {
      k := n;
    } else {
      k := WorkingTask(tasks[..n]);
    }
  }

  lemma WriterGoesOn(decoders: Decoders, s: State) returns (step: Step)
    requires !s.writer.Idle?
    ensures GoesOn(decoders, s, step)
  {
    match s.writer {
      case Writing(_, writes) => step := if writes == [] then Finish else Write(0, true);
      case Scanning(jobs, asked, _) =>
        if Unasked(jobs, asked) == {} {
          forall i | 0 <= i < |jobs| && jobs[i].labels.Reread? ensures jobs[i].tweetId in asked {
            assert i !in Unasked(jobs, asked);
          }
          step := Build;
        } else {
          var i :| i in Unasked(jobs, asked);
          step := Ask(jobs[i].tweetId, false);
        }
    }
  }

  /** While there is work, some step goes on. */
  lemma WorkGoesOn(decoders: Decoders, s: State) returns (step: Step)
    requires Work(s) > 0
    ensures GoesOn(decoders, s, step)
  {
    if TasksWork(s.tasks) > 0 {
      var k := WorkingTask(s.tasks);
      step := if s.tasks[k].unsent != [] then Send(k) else EndFill(k);
    } else if !s.writer.Idle? {
      step := WriterGoesOn(decoders, s);
    } else {
      step := Take(1);
    }
  }

  lemma {:induction false} NoWorkNoFills(tasks: seq<Task>, id: TweetId)
    requires TasksWork(tasks) == 0
    ensures TasksFills(tasks, id) == 0
  {
    if tasks != [] {
      NoWorkNoFills(tasks[..|tasks| - 1], id);
      assert JobIds([]) == [];
    }
  }

  lemma NoWorkNothingPending(s: State)
    requires PendingExact(s) && Work(s) == 0
    ensures s.pending == {} && s.queue == []
  {
    assert s.writer.Idle?;
    forall id ensures id !in s.pending {
      assert ExactFor(s, id);
      NoWorkNoFills(s.tasks, id);
      assert JobIds([]) == [];
    }
  }

  /** In every run, from any point on, whatever else happens and whatever is answered:
      without a new `fill` call, the fills go on by no more steps than there is work
      at that point; and once none of those steps is left to take, nothing is
      pending and nothing is queued. */
  lemma EveryScheduleReleases(decoders: Decoders, start: U64, before: seq<Step>, steps: seq<Step>)
    requires Run(decoders, start, before).Some?
    requires RunFrom(decoders, Run(decoders, start, before).value, steps).Some?
    requires forall i :: 0 <= i < |steps| ==> !steps[i].BeginFill?
    ensures var s := Run(decoders, start, before).value;
            var s' := RunFrom(decoders, s, steps).value;
            && Progress(decoders, s, steps) <= Work(s)
            && ((forall step :: !GoesOn(decoders, s', step)) <==> Work(s') == 0)
            && (Work(s') == 0 ==> s'.pending == {} && s'.queue == [])
  {
    var s := Run(decoders, start, before).value;
    var s' := RunFrom(decoders, s, steps).value;
    ProgressIsBounded(decoders, s, steps);
    RunThen(decoders, start, before, steps);
    RunKeepsPending(decoders, start, before + steps);
    if Work(s') > 0 {
      var step := WorkGoesOn(decoders, s');
    } else {
      NoWorkNothingPending(s');
      forall step ensures !GoesOn(decoders, s', step) {
        if GoesOn(decoders, s', step) {
          GoingOnUsesWork(decoders, s', step);
        }
      }
    }
  }

  /** So whatever is pending can still be released, by steps that go on alone. */
  lemma {:induction false} CanRelease(decoders: Decoders, s: State) returns (steps: seq<Step>)
    requires PendingExact(s)
    ensures RunFrom(decoders, s, steps).Some? && Progress(decoders, s, steps) == |steps|
    ensures RunFrom(decoders, s, steps).value.pending == {} && RunFrom(decoders, s, steps).value.queue == []
    decreases Work(s)
  {
    if Work(s) == 0 {
      NoWorkNothingPending(s);
      return [];
    }
    var step := WorkGoesOn(decoders, s);
    GoingOnUsesWork(decoders, s, step);
    StepKeepsPending(decoders, s, step);
    var rest := CanRelease(decoders, Apply(decoders, s, step));
    RunFromOne(decoders, s, step, rest);
    steps := [step] + rest;
    assert steps[1..] == rest;
  }
}
