/** When a fill brings back labels that an invalidation was meant to drop. A write
    stores the items that its job read, at one known step of the run; it misses a
    change of Manhattan that an invalidation followed exactly when that change came
    between the two. */
module Invalidations {
  import opened Basics
  import opened Labels
  import opened LabelEntry
  import opened Manhattan
  import opened LabelCacheProtocol
  import opened PendingFills
  import opened FillLock
  import opened Generations

  // ---- The step at which a job's items were read ----

  /** Step `n` is the last of the given steps that is `step`. */
  ghost predicate LastOf(steps: seq<Step>, step: Step, n: nat) {
    n < |steps| && steps[n] == step && forall j :: n < j < |steps| ==> steps[j] != step
  }

  lemma {:induction false} OtherStepKeepsScan(decoders: Decoders, s: State, step: Step, k: nat, id: TweetId)
    requires Enabled(decoders, s, step) && step != Scan(k, id)
    requires var s' := Apply(decoders, s, step); k < |s'.tasks| && id in s'.tasks[k].scans
    ensures k < |s.tasks| && id in s.tasks[k].scans
    ensures s.tasks[k].scans[id] == Apply(decoders, s, step).tasks[k].scans[id]
  {
  }

  lemma {:induction false} ScanStep(decoders: Decoders, s: State, k: nat, id: TweetId)
    requires Enabled(decoders, s, Scan(k, id))
    ensures k < |s.tasks| && Apply(decoders, s, Scan(k, id)).tasks[k].scans[id] == Current(s.history, id)
  {
  }

  /** What a task has scanned for a post, if it has. */
  ghost function ScanOf(s: State, k: nat, id: TweetId): Option<seq<RawSafetyLabel>> {
    if k < |s.tasks| && id in s.tasks[k].scans then Some(s.tasks[k].scans[id]) else None
  }

  lemma {:induction false} NextScan(decoders: Decoders, start: U64, steps: seq<Step>, n: nat, k: nat, id: TweetId)
    requires Run(decoders, start, steps).Some? && n < |steps|
    requires ScanOf(StateAt(decoders, start, steps, n + 1), k, id).Some?
    ensures var s := StateAt(decoders, start, steps, n);
            ScanOf(StateAt(decoders, start, steps, n + 1), k, id) ==
            if steps[n] == Scan(k, id) then Some(Current(s.history, id)) else ScanOf(s, k, id)
  {
    StepOfRun(decoders, start, steps, n);
    if steps[n] == Scan(k, id) {
      ScanStep(decoders, StateAt(decoders, start, steps, n), k, id);
    } else {
      OtherStepKeepsScan(decoders, StateAt(decoders, start, steps, n), steps[n], k, id);
    }
  }

  /** Items scanned by a task are what Manhattan held at its last scan of the post. */
  lemma {:induction false} ScannedAt(decoders: Decoders, start: U64, steps: seq<Step>, m: nat, k: nat, id: TweetId)
    returns (n: nat)
    requires Run(decoders, start, steps).Some? && m <= |steps|
    requires ScanOf(StateAt(decoders, start, steps, m), k, id).Some?
    ensures LastOf(steps[..m], Scan(k, id), n)
    ensures ScanOf(StateAt(decoders, start, steps, m), k, id) ==
            Some(Current(StateAt(decoders, start, steps, n).history, id))
    decreases m
  {
    StartHasNoScan(decoders, start, steps, k, id);
    if m > 0 {
      NextScan(decoders, start, steps, m - 1, k, id);
      n := m - 1;
      if steps[n] != Scan(k, id) {
        n := ScannedAt(decoders, start, steps, m - 1, k, id);
        LastOfNext(steps, m - 1, Scan(k, id), n);
      }
    }
  }

  lemma {:induction false} StartHasNoScan(decoders: Decoders, start: U64, steps: seq<Step>, k: nat, id: TweetId)
    requires Run(decoders, start, steps).Some?
    ensures ScanOf(StateAt(decoders, start, steps, 0), k, id).None?
  {
  }

  lemma {:induction false} LastOfNext(steps: seq<Step>, m: nat, step: Step, n: nat)
    requires m < |steps| && steps[m] != step && LastOf(steps[..m], step, n)
    ensures LastOf(steps[..m + 1], step, n)
  {
    assert steps[..m + 1] == steps[..m] + [steps[m]];
  }

  /** Items reread by the writer while a job waits are what Manhattan held at the
      last scan the writer made for it. */
  lemma {:induction false} RereadAt(decoders: Decoders, s: State, steps: seq<Step>, id: TweetId,
                                    reread: Option<seq<RawSafetyLabel>>) returns (n: Option<nat>)
    requires StaysPending(decoders, s, steps, id)
    ensures n.None? ==> RereadIn(decoders, s, steps, id, reread) == reread && Ask(id, true) !in steps
    ensures n.Some? ==>
              && LastOf(steps, Ask(id, true), n.value)
              && RunFrom(decoders, s, steps[..n.value]).Some?
              && RereadIn(decoders, s, steps, id, reread) ==
                 Some(Current(RunFrom(decoders, s, steps[..n.value]).value.history, id))
    decreases |steps|
  {
    n := None;
    if steps != [] {
      var s' := Apply(decoders, s, steps[0]);
      var later := RereadAt(decoders, s', steps[1..], id, RereadAfter(s, reread, steps[0], id));
      if later.Some? {
        n := Some(later.value + 1);
        assert steps[..later.value + 1][1..] == steps[1..][..later.value];
        assert forall j :: later.value + 1 < j < |steps| ==> steps[j] == steps[1..][j - 1];
      } else if steps[0] == Ask(id, true) {
        n := Some(0);
        assert forall j :: 0 < j < |steps| ==> steps[j] == steps[1..][j - 1];
      }
    }
  }

  /** The step of the run at which the job's items were read: its task's last scan
      before the `fill` call, or the writer's scan after it. */
  ghost predicate ReadAtStep(f: FillRun, n: nat) {
    match f.job.labels
    case Scanned(_) => LastOf(f.before, Scan(f.task, f.job.tweetId), n)
    case Reread => n > |f.before| && LastOf(f.rest, Ask(f.job.tweetId, true), n - |f.before| - 1)
  }

  lemma {:induction false} ScannedBefore(decoders: Decoders, f: FillRun) returns (n: nat)
    requires OnItsWay(decoders, f) && f.job.labels.Scanned?
    ensures Run(decoders, f.start, Steps(f)).Some? && n < |f.before| && ReadAtStep(f, n)
    ensures f.job.labels.items == Current(StateAt(decoders, f.start, Steps(f), n).history, f.job.tweetId)
  {
    var s := StateFound(decoders, f);
    FillRunIsRun(decoders, f);
    AdmittedIsGiven(f.jobs, s.pending, f.job);
    var i :| 0 <= i < |f.jobs| && f.jobs[i] == f.job;
    assert Justified(f.jobs[i], s.tasks[f.task].context, s.tasks[f.task].seen, s.tasks[f.task].scans);
    assert Steps(f)[..|f.before|] == f.before;
    n := ScannedAt(decoders, f.start, Steps(f), |f.before|, f.task, f.job.tweetId);
  }

  lemma {:induction false} RereadSince(decoders: Decoders, f: FillRun) returns (n: nat)
    requires OnItsWay(decoders, f) && f.job.labels.Reread? && RereadOf(decoders, f).Some?
    ensures Run(decoders, f.start, Steps(f)).Some? && n < |Steps(f)| && ReadAtStep(f, n)
    ensures RereadOf(decoders, f) == Some(Current(StateAt(decoders, f.start, Steps(f), n).history, f.job.tweetId))
  {
    FillRunIsRun(decoders, f);
    var begin := [BeginFill(f.task, f.jobs)];
    var asked := RereadAt(decoders, StateMarked(decoders, f), f.rest, f.job.tweetId, None);
    n := |f.before| + 1 + asked.value;
    var part := f.rest[..asked.value];
    assert Steps(f)[..n] == f.before + (begin + part);
    RunThen(decoders, f.start, f.before, begin + part);
    RunFromOne(decoders, StateFound(decoders, f), begin[0], part);
  }

  /** A write stores what Manhattan held at the step at which its job's items were read. */
  lemma {:induction false} WritesWhatWasRead(decoders: Decoders, f: FillRun, i: nat) returns (n: nat)
    requires WritesNext(decoders, f, i)
    ensures Run(decoders, f.start, Steps(f)).Some? && n < |Steps(f)| && ReadAtStep(f, n)
    ensures EntryAt(StateWritten(decoders, f, i), f.job.tweetId) ==
            Some(EncodeEntry(f.job.fill, Current(StateAt(decoders, f.start, Steps(f), n).history, f.job.tweetId)))
  {
    WriteReplaces(decoders, f, i);
    if f.job.labels.Scanned? {
      n := ScannedBefore(decoders, f);
    } else {
      n := RereadSince(decoders, f);
    }
  }

  // ---- Changes that a write misses ----

  /** How many changes of a post the history holds. */
  ghost function Changes(h: History, id: TweetId): nat {
    if h == [] then 0 else Changes(h[..|h| - 1], id) + if h[|h| - 1].id == id then 1 else 0
  }

  ghost predicate ChangesPost(step: Step, id: TweetId) {
    step.ManhattanWrite? && step.id == id
  }

  lemma {:induction false} StepChanges(decoders: Decoders, s: State, step: Step, id: TweetId)
    requires Enabled(decoders, s, step)
    ensures var h' := Apply(decoders, s, step).history;
            && Changes(h', id) == Changes(s.history, id) + (if ChangesPost(step, id) then 1 else 0)
            && (!ChangesPost(step, id) ==> Current(h', id) == Current(s.history, id))
  {
    if step.ManhattanWrite? {
      var h' := Apply(decoders, s, step).history;
      assert h'[..|s.history|] == s.history;
    }
  }

  ghost predicate Changed(steps: seq<Step>, n: nat, m: nat, id: TweetId)
    requires m <= |steps|
  {
    exists j :: n <= j < m && ChangesPost(steps[j], id)
  }

  /** The post changed from `h` to `h'` just when `changed` says so. */
  ghost predicate Differ(h: History, h': History, id: TweetId, changed: bool) {
    && Changes(h, id) <= Changes(h', id)
    && (Changes(h, id) < Changes(h', id) <==> changed)
    && (!changed ==> Current(h, id) == Current(h', id))
  }

  /** Between two points of a run, the changes of a post are the steps that change it. */
  ghost predicate DifferAt(decoders: Decoders, start: U64, steps: seq<Step>, n: nat, m: nat, id: TweetId)
    requires Run(decoders, start, steps).Some? && n <= m <= |steps|
  {
    Differ(StateAt(decoders, start, steps, n).history, StateAt(decoders, start, steps, m).history, id,
           Changed(steps, n, m, id))
  }

  lemma {:induction false} ChangesBetween(decoders: Decoders, start: U64, steps: seq<Step>, n: nat, m: nat, id: TweetId)
    requires Run(decoders, start, steps).Some? && n <= m <= |steps|
    ensures DifferAt(decoders, start, steps, n, m, id)
  {
    var at := Histories(decoders, start, steps);
    forall j: nat | j < |steps| ensures NextDiffers(at, steps, j, id) {
      NextHistory(decoders, start, steps, j, id);
    }
    DifferAlong(at, steps, n, m, id);
  }

  /** The history of Manhattan at each point of a run. */
  ghost function Histories(decoders: Decoders, start: U64, steps: seq<Step>): (at: seq<History>)
    requires Run(decoders, start, steps).Some?
    ensures |at| == |steps| + 1
    ensures forall j: nat :: j <= |steps| ==> at[j] == StateAt(decoders, start, steps, j).history
  {
    seq(|steps| + 1, j requires 0 <= j < |steps| + 1 => StateAt(decoders, start, steps, j).history)
  }

  ghost predicate NextDiffers(at: seq<History>, steps: seq<Step>, j: nat, id: TweetId)
    requires |at| == |steps| + 1
  {
    j < |steps| && Differ(at[j], at[j + 1], id, ChangesPost(steps[j], id))
  }

  lemma {:induction false} DifferAlong(at: seq<History>, steps: seq<Step>, n: nat, m: nat, id: TweetId)
    requires |at| == |steps| + 1 && n <= m <= |steps|
    requires forall j: nat :: j < |steps| ==> NextDiffers(at, steps, j, id)
    ensures Differ(at[n], at[m], id, Changed(steps, n, m, id))
    decreases m
  {
    if n == m {
      assert !Changed(steps, n, m, id);
    } else {
      DifferAlong(at, steps, n, m - 1, id);
      assert NextDiffers(at, steps, m - 1, id);
      ChangedNext(steps, n, m - 1, id);
      DifferThrough(at[n], at[m - 1], at[m], id, Changed(steps, n, m - 1, id), ChangesPost(steps[m - 1], id));
    }
  }

  lemma {:induction false} DifferThrough(h: History, h': History, h'': History, id: TweetId, first: bool, second: bool)
    requires Differ(h, h', id, first) && Differ(h', h'', id, second)
    ensures Differ(h, h'', id, first || second)
  {
  }

  lemma {:induction false} NextHistory(decoders: Decoders, start: U64, steps: seq<Step>, n: nat, id: TweetId)
    requires Run(decoders, start, steps).Some? && n < |steps|
    ensures Differ(StateAt(decoders, start, steps, n).history, StateAt(decoders, start, steps, n + 1).history, id,
                   ChangesPost(steps[n], id))
  {
    StepOfRun(decoders, start, steps, n);
    StepChanges(decoders, StateAt(decoders, start, steps, n), steps[n], id);
  }

  lemma {:induction false} ChangedNext(steps: seq<Step>, n: nat, m: nat, id: TweetId)
    requires n <= m < |steps|
    ensures Changed(steps, n, m + 1, id) <==> Changed(steps, n, m, id) || ChangesPost(steps[m], id)
  {
  }

  /** What was read at step `n` misses a change of the post made before step `m`. */
  ghost predicate Misses(decoders: Decoders, start: U64, steps: seq<Step>, n: nat, m: nat, id: TweetId)
    requires Run(decoders, start, steps).Some? && n <= |steps| && m <= |steps|
  {
    Changes(StateAt(decoders, start, steps, n).history, id) < Changes(StateAt(decoders, start, steps, m).history, id)
  }

  /** For an invalidation at any step `m` of the run, before or after the `fill`
      call: the write misses a change that the invalidation followed if and only if
      the post changed between the step at which the job's items were read and the
      invalidation. Otherwise it stores what Manhattan held at the invalidation or
      later. */
  lemma {:induction false} InvalidationIsOutrunIff(decoders: Decoders, f: FillRun, i: nat, m: nat) returns (n: nat)
    requires WritesNext(decoders, f, i) && m < |Steps(f)| && Steps(f)[m] == Remove(f.job.tweetId)
    ensures Run(decoders, f.start, Steps(f)).Some? && n < |Steps(f)| && ReadAtStep(f, n)
    ensures EntryAt(StateWritten(decoders, f, i), f.job.tweetId) ==
            Some(EncodeEntry(f.job.fill, Current(StateAt(decoders, f.start, Steps(f), n).history, f.job.tweetId)))
    ensures Misses(decoders, f.start, Steps(f), n, m, f.job.tweetId) <==>
            exists j :: n < j < m && ChangesPost(Steps(f)[j], f.job.tweetId)
    ensures Misses(decoders, f.start, Steps(f), n, m, f.job.tweetId) || n > m ||
            Current(StateAt(decoders, f.start, Steps(f), n).history, f.job.tweetId) ==
            Current(StateAt(decoders, f.start, Steps(f), m).history, f.job.tweetId)
  {
    n := WritesWhatWasRead(decoders, f, i);
    assert !ChangesPost(Steps(f)[n], f.job.tweetId);
    MissesIff(decoders, f.start, Steps(f), n, m, f.job.tweetId);
  }

  lemma {:induction false} MissesIff(decoders: Decoders, start: U64, steps: seq<Step>, n: nat, m: nat, id: TweetId)
    requires Run(decoders, start, steps).Some? && n < |steps| && m < |steps| && !ChangesPost(steps[n], id)
    ensures Misses(decoders, start, steps, n, m, id) <==> exists j :: n < j < m && ChangesPost(steps[j], id)
    ensures Misses(decoders, start, steps, n, m, id) || n > m ||
            Current(StateAt(decoders, start, steps, n).history, id) ==
            Current(StateAt(decoders, start, steps, m).history, id)
  {
    if n <= m {
      ChangesBetween(decoders, start, steps, n, m, id);
    } else {
      ChangesBetween(decoders, start, steps, m, n, id);
    }
  }

  /** So a reread that is admitted after the invalidation never brings anything back. */
  lemma {:induction false} LateRereadIsCurrent(decoders: Decoders, f: FillRun, i: nat, m: nat) returns (n: nat)
    requires WritesNext(decoders, f, i) && f.job.labels.Reread?
    requires m < |f.before| && f.before[m] == Remove(f.job.tweetId)
    ensures Run(decoders, f.start, Steps(f)).Some? && m < n < |Steps(f)|
    ensures EntryAt(StateWritten(decoders, f, i), f.job.tweetId) ==
            Some(EncodeEntry(f.job.fill, Current(StateAt(decoders, f.start, Steps(f), n).history, f.job.tweetId)))
  {
    n := WritesWhatWasRead(decoders, f, i);
  }
}
