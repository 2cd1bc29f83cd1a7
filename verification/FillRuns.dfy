/** Calls of `fill` and of the writer as runs of the steps of `LabelCacheProtocol`,
    so that what is proved of every run holds of the code. */
module FillRuns {
  import opened Basics
  import opened Labels
  import opened LabelEntry
  import opened Manhattan
  import opened LabelCacheProtocol
  import opened FillQueue

  // ---- A fill call is a run of protocol steps ----

  ghost function Sends(k: nat, count: nat): seq<Step> {
    if count == 0 then [] else [Send(k)] + Sends(k, count - 1)
  }

  /** A queue and a drop list once all of `unsent` has been sent. */
  ghost function Flush(queue: seq<FillJob>, unsent: seq<FillJob>, dropped: seq<TweetId>): (seq<FillJob>, seq<TweetId>)
    requires |queue| <= FILL_QUEUE_KEYS
  {
    var sent := Min(|unsent|, FILL_QUEUE_KEYS - |queue|);
    (queue + unsent[..sent], dropped + JobIds(unsent[sent..]))
  }

  lemma FlushHead(queue: seq<FillJob>, unsent: seq<FillJob>, dropped: seq<TweetId>)
    requires |queue| <= FILL_QUEUE_KEYS && unsent != []
    ensures Flush(queue, unsent, dropped) ==
            if |queue| < FILL_QUEUE_KEYS then Flush(queue + [unsent[0]], unsent[1..], dropped)
            else Flush(queue, unsent[1..], dropped + [unsent[0].tweetId])
  {
    var rest := unsent[1..];
    if |queue| < FILL_QUEUE_KEYS {
      var sent := Min(|rest|, FILL_QUEUE_KEYS - |queue| - 1);
      assert queue + [unsent[0]] + rest[..sent] == queue + unsent[..sent + 1];
      assert rest[sent..] == unsent[sent + 1..];
    } else {
      assert rest[..0] == unsent[..0];
      assert dropped + [unsent[0].tweetId] + JobIds(rest[0..]) == dropped + JobIds(unsent[0..]);
    }
  }

  /** The state once task `k` has sent all it had. */
  ghost function Sent(s: State, k: nat): State
    requires k < |s.tasks| && |s.queue| <= FILL_QUEUE_KEYS
  {
    var task := s.tasks[k];
    var (queue, dropped) := Flush(s.queue, task.unsent, task.dropped);
    s.(queue := queue, tasks := s.tasks[k := task.(unsent := [], dropped := dropped)])
  }

  lemma SendOnce(decoders: Decoders, s: State, k: nat)
    requires k < |s.tasks| && |s.queue| <= FILL_QUEUE_KEYS && s.tasks[k].unsent != []
    ensures var s' := Apply(decoders, s, Send(k));
            && k < |s'.tasks| && |s'.queue| <= FILL_QUEUE_KEYS
            && |s'.tasks[k].unsent| == |s.tasks[k].unsent| - 1
            && Sent(s', k) == Sent(s, k)
  {
    var s' := Apply(decoders, s, Send(k));
    FlushHead(s.queue, s.tasks[k].unsent, s.tasks[k].dropped);
    assert Sent(s', k).tasks == Sent(s, k).tasks;
  }

  lemma {:induction false} SendsRun(decoders: Decoders, s: State, k: nat, last: Step)
    requires k < |s.tasks| && |s.queue| <= FILL_QUEUE_KEYS
    ensures RunFrom(decoders, s, Sends(k, |s.tasks[k].unsent|) + [last]) == RunFrom(decoders, Sent(s, k), [last])
    decreases |s.tasks[k].unsent|
  {
    var task := s.tasks[k];
    var steps := Sends(k, |task.unsent|) + [last];
    if task.unsent == [] {
      assert steps == [last];
      assert s.queue + task.unsent[..0] == s.queue;
      assert task.dropped + JobIds(task.unsent[0..]) == task.dropped;
      assert s.tasks[k := task] == s.tasks;
    } else {
      SendOnce(decoders, s, k);
      assert steps[1..] == Sends(k, |task.unsent| - 1) + [last];
      SendsRun(decoders, Apply(decoders, s, Send(k)), k, last);
    }
  }

  /** From a state where task `k` is between fill calls, marking the jobs,
      sending the new ones and unmarking the dropped ones is a run of the
      protocol, and it ends with the queue and the pending set of `Fill`. */
  lemma UninterruptedFill(decoders: Decoders, s: State, k: nat, jobs: seq<FillJob>)
    requires Enabled(decoders, s, BeginFill(k, jobs)) && |s.queue| <= FILL_QUEUE_KEYS
    ensures var admitted := Admit(jobs, s.pending).0;
            var sent := Min(|admitted|, FILL_QUEUE_KEYS - |s.queue|);
            RunFrom(decoders, s, [BeginFill(k, jobs)] + (Sends(k, |admitted|) + [EndFill(k)])) ==
            Some(s.(queue := s.queue + admitted[..sent], pending := s.pending + IdSet(admitted[..sent])))
  {
    var (admitted, marked) := Admit(jobs, s.pending);
    RunFromOne(decoders, s, BeginFill(k, jobs), Sends(k, |admitted|) + [EndFill(k)]);
    var s1 := Apply(decoders, s, BeginFill(k, jobs));
    SendsRun(decoders, s1, k, EndFill(k));
    RunFromOne(decoders, Sent(s1, k), EndFill(k), []);
    assert [EndFill(k)] + [] == [EndFill(k)];
    FillEnds(decoders, s, k, jobs);
  }

  /** The last step of an uninterrupted fill. */
  lemma FillEnds(decoders: Decoders, s: State, k: nat, jobs: seq<FillJob>)
    requires Enabled(decoders, s, BeginFill(k, jobs)) && |s.queue| <= FILL_QUEUE_KEYS
    ensures var admitted := Admit(jobs, s.pending).0;
            var sent := Min(|admitted|, FILL_QUEUE_KEYS - |s.queue|);
            var s2 := Sent(Apply(decoders, s, BeginFill(k, jobs)), k);
            && Enabled(decoders, s2, EndFill(k))
            && Apply(decoders, s2, EndFill(k)) ==
               s.(queue := s.queue + admitted[..sent], pending := s.pending + IdSet(admitted[..sent]))
  {
    var (admitted, marked) := Admit(jobs, s.pending);
    var sent := Min(|admitted|, FILL_QUEUE_KEYS - |s.queue|);
    var s2 := Sent(Apply(decoders, s, BeginFill(k, jobs)), k);
    assert s2.tasks[k].dropped == JobIds(admitted[sent..]);
    AdmittedAreNew(jobs, s.pending);
    DropTail(s.pending, admitted, sent);
    assert Apply(decoders, s2, EndFill(k)).tasks == s.tasks;
  }

  // ---- A batch of the writer is a run of protocol steps ----

  /** Manhattan's answers to a scan: what it holds, where it answers and that decodes. */
  ghost predicate TrueScan(decoders: Decoders, history: History, scan: ScanAnswers) {
    forall id :: scan(id).Some? ==>
      scan(id).value == Current(history, id) && LabelsOf(decoders, Current(history, id)).Some?
  }

  ghost function Asks(jobs: seq<FillJob>, scan: ScanAnswers): seq<Step> {
    if jobs == [] then [] else
    var job := jobs[|jobs| - 1];
    Asks(jobs[..|jobs| - 1], scan) + if job.labels.Reread? then [Ask(job.tweetId, scan(job.tweetId).Some?)] else []
  }

  /** The writer once it has scanned for the first `i` jobs of its batch. */
  ghost function AfterAsks(jobs: seq<FillJob>, scan: ScanAnswers, i: nat): Writer
    requires i <= |jobs|
  {
    Scanning(jobs, RereadIds(jobs[..i]), Answered(jobs[..i], scan))
  }

  lemma AskOnce(decoders: Decoders, s: State, jobs: seq<FillJob>, scan: ScanAnswers, i: nat)
    requires i < |jobs| && s.writer == AfterAsks(jobs, scan, i) && jobs[i].labels.Reread?
    requires Distinct(JobIds(jobs)) && TrueScan(decoders, s.history, scan)
    ensures var ask := Ask(jobs[i].tweetId, scan(jobs[i].tweetId).Some?);
            Enabled(decoders, s, ask) && Apply(decoders, s, ask) == s.(writer := AfterAsks(jobs, scan, i + 1))
  {
    var id := jobs[i].tweetId;
    RereadIdsMembers(jobs[..i], id);
    forall k | 0 <= k < i ensures jobs[..i][k].tweetId != id {
      assert JobIds(jobs)[k] != JobIds(jobs)[i];
    }
    AnsweredGrows(jobs, i, scan);
    forall x ensures x in RereadIds(jobs[..i + 1]) <==> x in RereadIds(jobs[..i]) || x == id {
      RereadGrows(jobs, i, x);
      RereadIdsMembers(jobs[..i], x);
      RereadIdsMembers(jobs[..i + 1], x);
    }
    assert RereadIds(jobs[..i + 1]) == RereadIds(jobs[..i]) + {id};
  }

  lemma NoAskNeeded(jobs: seq<FillJob>, scan: ScanAnswers, i: nat)
    requires i < |jobs| && jobs[i].labels.Scanned?
    ensures AfterAsks(jobs, scan, i + 1) == AfterAsks(jobs, scan, i)
  {
    AnsweredGrows(jobs, i, scan);
    forall x ensures x in RereadIds(jobs[..i + 1]) <==> x in RereadIds(jobs[..i]) {
      RereadGrows(jobs, i, x);
      RereadIdsMembers(jobs[..i], x);
      RereadIdsMembers(jobs[..i + 1], x);
    }
    assert RereadIds(jobs[..i + 1]) == RereadIds(jobs[..i]);
  }

  lemma {:induction false} AsksRun(decoders: Decoders, s: State, jobs: seq<FillJob>,
                                   scan: ScanAnswers, i: nat)
    requires i <= |jobs| && s.writer == Scanning(jobs, {}, map[])
    requires Distinct(JobIds(jobs)) && TrueScan(decoders, s.history, scan)
    ensures RunFrom(decoders, s, Asks(jobs[..i], scan)) == Some(s.(writer := AfterAsks(jobs, scan, i)))
  {
    if i == 0 {
      assert AfterAsks(jobs, scan, 0) == s.writer;
    } else {
      AsksRun(decoders, s, jobs, scan, i - 1);
      assert jobs[..i][..i - 1] == jobs[..i - 1];
      var job, s' := jobs[i - 1], s.(writer := AfterAsks(jobs, scan, i - 1));
      if job.labels.Reread? {
        var ask := Ask(job.tweetId, scan(job.tweetId).Some?);
        AskOnce(decoders, s', jobs, scan, i - 1);
        RunFromConcat(decoders, s, Asks(jobs[..i - 1], scan), [ask]);
        RunFromOne(decoders, s', ask, []);
      } else {
        NoAskNeeded(jobs, scan, i - 1);
        assert Asks(jobs[..i], scan) == Asks(jobs[..i - 1], scan);
      }
    }
  }

  ghost function WriteSteps(writes: seq<(TweetId, Bytes)>, stores: TweetId -> bool): seq<Step> {
    if writes == [] then [] else [Write(0, stores(writes[0].0))] + WriteSteps(writes[1..], stores)
  }

  lemma {:induction false} WritesRun(decoders: Decoders, s: State, stores: TweetId -> bool)
    requires s.writer.Writing?
    ensures RunFrom(decoders, s, WriteSteps(s.writer.writes, stores)) ==
            Some(s.(writer := Writing(s.writer.ids, []), cache := Stores(s.cache, s.writer.writes, stores)))
    decreases |s.writer.writes|
  {
    var Writing(ids, writes) := s.writer;
    if writes != [] {
      var write := Write(0, stores(writes[0].0));
      var s' := Apply(decoders, s, write);
      assert writes[..0] + writes[1..] == writes[1..];
      RunFromOne(decoders, s, write, WriteSteps(writes[1..], stores));
      WritesRun(decoders, s', stores);
      var first := [writes[0]];
      StoresConcat(s.cache, first, writes[1..], stores);
      assert first + writes[1..] == writes && first[..0] == [];
      assert s'.cache == Stores(s.cache, first, stores);
    }
  }

  /** The steps of one batch of the writer. */
  ghost function BatchSteps(jobs: seq<FillJob>, scan: ScanAnswers,
                            stores: TweetId -> bool): seq<Step>
  {
    [Take(|jobs|)] + (Asks(jobs, scan) +
    ([Build] + (WriteSteps(BuildWrites(jobs, Answered(jobs, scan)), stores) + [Finish])))
  }

  /** Taking a batch from the queue, scanning, building, storing and unmarking is
      a run of the protocol, and it ends with the cache and the pending set of `Write`. */
  lemma UninterruptedWrite(decoders: Decoders, s: State, jobs: seq<FillJob>,
                           scan: ScanAnswers, stores: TweetId -> bool)
    requires s.writer.Idle? && 1 <= |jobs| <= FILL_BATCH_KEYS && jobs <= s.queue
    requires Distinct(JobIds(jobs)) && TrueScan(decoders, s.history, scan)
    ensures RunFrom(decoders, s, BatchSteps(jobs, scan, stores)) ==
            Some(s.(queue := s.queue[|jobs|..],
                    cache := Stores(s.cache, BuildWrites(jobs, Answered(jobs, scan)), stores),
                    pending := s.pending - IdSet(jobs)))
  {
    var rest := [Build] + (WriteSteps(BuildWrites(jobs, Answered(jobs, scan)), stores) + [Finish]);
    var s1 := Apply(decoders, s, Take(|jobs|));
    assert s1.writer == Scanning(jobs, {}, map[]);
    RunFromOne(decoders, s, Take(|jobs|), Asks(jobs, scan) + rest);
    AsksRun(decoders, s1, jobs, scan, |jobs|);
    assert jobs[..|jobs|] == jobs;
    RunFromConcat(decoders, s1, Asks(jobs, scan), rest);
    BatchEnds(decoders, s1.(writer := AfterAsks(jobs, scan, |jobs|)), jobs, scan, stores);
  }

  /** The batch from its last scan on. */
  lemma BatchEnds(decoders: Decoders, s: State, jobs: seq<FillJob>,
                  scan: ScanAnswers, stores: TweetId -> bool)
    requires s.writer == AfterAsks(jobs, scan, |jobs|)
    ensures var writes := BuildWrites(jobs, Answered(jobs, scan));
            RunFrom(decoders, s, [Build] + (WriteSteps(writes, stores) + [Finish])) ==
            Some(s.(writer := Idle, cache := Stores(s.cache, writes, stores), pending := s.pending - IdSet(jobs)))
  {
    var writes := BuildWrites(jobs, Answered(jobs, scan));
    AllAsked(decoders, s, jobs, scan);
    RunFromOne(decoders, s, Build, WriteSteps(writes, stores) + [Finish]);
    var s' := Apply(decoders, s, Build);
    WritesRun(decoders, s', stores);
    RunFromConcat(decoders, s', WriteSteps(writes, stores), [Finish]);
    FinishRuns(decoders, s'.(writer := Writing(JobIds(jobs), []), cache := Stores(s.cache, writes, stores)));
  }

  lemma FinishRuns(decoders: Decoders, s: State)
    requires s.writer.Writing? && s.writer.writes == []
    ensures RunFrom(decoders, s, [Finish]) ==
            Some(s.(pending := s.pending - (set id | id in s.writer.ids), writer := Idle))
  {
    RunFromOne(decoders, s, Finish, []);
    assert [Finish] + [] == [Finish];
  }

  lemma AllAsked(decoders: Decoders, s: State, jobs: seq<FillJob>, scan: ScanAnswers)
    requires s.writer == AfterAsks(jobs, scan, |jobs|)
    ensures Enabled(decoders, s, Build) && s.writer.found == Answered(jobs, scan)
  {
    assert jobs[..|jobs|] == jobs;
    forall i | 0 <= i < |jobs| && jobs[i].labels.Reread? ensures jobs[i].tweetId in s.writer.asked {
      assert IsReread(jobs, jobs[i].tweetId);
      RereadIdsMembers(jobs, jobs[i].tweetId);
    }
  }
}
