/** When a fill lowers the generation of a stored entry. A refresh computed from an
    old read may be written after a newer one; that happens exactly when the newer
    entry was stored by another server since the `fill` call admitted the job, or
    was there already and stayed. */
module Generations {
  import opened Basics
  import opened Labels
  import opened LabelEntry
  import opened LabelCacheProtocol
  import opened PendingFills
  import opened Staleness
  import opened FillLock

  // ---- A fill on its way, in a run ----

  /** A run `before` a `fill` call of a task with some jobs, one of them `job`, and
      the steps since. */
  datatype FillRun = FillRun(start: U64, before: seq<Step>, task: nat, jobs: seq<FillJob>, job: FillJob,
                             rest: seq<Step>)

  ghost predicate StaysPending(decoders: Decoders, s: State, steps: seq<Step>, id: TweetId)
    decreases |steps|
  {
    && id in s.pending
    && (steps == [] ||
        (Enabled(decoders, s, steps[0]) && StaysPending(decoders, Apply(decoders, s, steps[0]), steps[1..], id)))
  }

  /** The call admits the job, whose id has been pending ever since. */
  ghost predicate OnItsWay(decoders: Decoders, f: FillRun) {
    && Run(decoders, f.start, f.before).Some?
    && var s := Run(decoders, f.start, f.before).value;
       && Enabled(decoders, s, BeginFill(f.task, f.jobs))
       && f.job in Admit(f.jobs, s.pending).0
       && StaysPending(decoders, Apply(decoders, s, BeginFill(f.task, f.jobs)), f.rest, f.job.tweetId)
  }

  /** The state the call found. */
  ghost function StateFound(decoders: Decoders, f: FillRun): State
    requires OnItsWay(decoders, f)
  {
    Run(decoders, f.start, f.before).value
  }

  /** The state once the call has marked its jobs. */
  ghost function StateMarked(decoders: Decoders, f: FillRun): State
    requires OnItsWay(decoders, f)
  {
    Apply(decoders, StateFound(decoders, f), BeginFill(f.task, f.jobs))
  }

  ghost function Steps(f: FillRun): seq<Step> {
    f.before + ([BeginFill(f.task, f.jobs)] + f.rest)
  }

  lemma {:induction false} PendingIsRun(decoders: Decoders, s: State, steps: seq<Step>, id: TweetId)
    requires StaysPending(decoders, s, steps, id)
    ensures RunFrom(decoders, s, steps).Some?
    decreases |steps|
  {
    if steps != [] {
      PendingIsRun(decoders, Apply(decoders, s, steps[0]), steps[1..], id);
    }
  }

  lemma FillRunIsRun(decoders: Decoders, f: FillRun)
    requires OnItsWay(decoders, f)
    ensures Run(decoders, f.start, Steps(f)).Some?
    ensures Run(decoders, f.start, Steps(f)) == RunFrom(decoders, StateMarked(decoders, f), f.rest)
  {
    RunThen(decoders, f.start, f.before, [BeginFill(f.task, f.jobs)] + f.rest);
    RunFromOne(decoders, StateFound(decoders, f), BeginFill(f.task, f.jobs), f.rest);
    PendingIsRun(decoders, StateMarked(decoders, f), f.rest, f.job.tweetId);
  }

  /** The state now. */
  ghost function StateNow(decoders: Decoders, f: FillRun): State
    requires OnItsWay(decoders, f)
  {
    FillRunIsRun(decoders, f);
    Run(decoders, f.start, Steps(f)).value
  }

  // ---- The lock ----

  /** The items that the writer read for a post over some steps. */
  ghost function RereadIn(decoders: Decoders, s: State, steps: seq<Step>, id: TweetId,
                          reread: Option<seq<RawSafetyLabel>>): Option<seq<RawSafetyLabel>>
    requires StaysPending(decoders, s, steps, id)
    decreases |steps|
  {
    if steps == [] then reread else
    RereadIn(decoders, Apply(decoders, s, steps[0]), steps[1..], id, RereadAfter(s, reread, steps[0], id))
  }

  /** What steps of others make of the entry of a post. */
  ghost function EntryOver(entry: Option<Bytes>, steps: seq<Step>, id: TweetId): Option<Bytes>
    decreases |steps|
  {
    if steps == [] then entry else EntryOver(EntryAfter(entry, steps[0], id), steps[1..], id)
  }

  lemma {:induction false} LockHolds(decoders: Decoders, s: State, job: FillJob, place: Place, entry: Option<Bytes>,
                                     reread: Option<seq<RawSafetyLabel>>, steps: seq<Step>)
    returns (place': Place)
    requires Locked(s, job, place, entry, reread) && StaysPending(decoders, s, steps, job.tweetId)
    ensures RunFrom(decoders, s, steps).Some?
    ensures Locked(RunFrom(decoders, s, steps).value, job, place', EntryOver(entry, steps, job.tweetId),
                   RereadIn(decoders, s, steps, job.tweetId, reread))
    decreases |steps|
  {
    if steps == [] {
      place' := place;
    } else {
      var id, s' := job.tweetId, Apply(decoders, s, steps[0]);
      StepKeepsLock(decoders, s, job, place, entry, reread, steps[0]);
      place' := LockHolds(decoders, s', job, PlaceAfter(s, job, place, steps[0]), EntryAfter(entry, steps[0], id),
                          RereadAfter(s, reread, steps[0], id), steps[1..]);
    }
  }

  lemma FillTakesLock(decoders: Decoders, f: FillRun)
    requires OnItsWay(decoders, f)
    ensures Locked(StateMarked(decoders, f), f.job, Sending(f.task), EntryAt(StateFound(decoders, f), f.job.tweetId),
                   None)
  {
    var s, id := StateFound(decoders, f), f.job.tweetId;
    RunKeepsPending(decoders, f.start, f.before);
    RunKeepsWrites(decoders, f.start, f.before);
    StepKeepsPending(decoders, s, BeginFill(f.task, f.jobs));
    var s' := StateMarked(decoders, f);
    assert ExactFor(s', id);
    assert At(s', f.job, Sending(f.task));
    PlaceIsExclusive(s', f.job, Sending(f.task));
  }

  /** What others left of the entry that was there when the job was admitted. */
  ghost function EntryLeft(decoders: Decoders, f: FillRun): Option<Bytes>
    requires OnItsWay(decoders, f)
  {
    EntryOver(EntryAt(StateFound(decoders, f), f.job.tweetId), f.rest, f.job.tweetId)
  }

  ghost function RereadOf(decoders: Decoders, f: FillRun): Option<seq<RawSafetyLabel>>
    requires OnItsWay(decoders, f)
  {
    RereadIn(decoders, StateMarked(decoders, f), f.rest, f.job.tweetId, None)
  }

  lemma FillHoldsLock(decoders: Decoders, f: FillRun) returns (place: Place)
    requires OnItsWay(decoders, f)
    ensures Locked(StateNow(decoders, f), f.job, place, EntryLeft(decoders, f), RereadOf(decoders, f))
  {
    FillTakesLock(decoders, f);
    place := LockHolds(decoders, StateMarked(decoders, f), f.job, Sending(f.task),
                       EntryAt(StateFound(decoders, f), f.job.tweetId),
                       None, f.rest);
    FillRunIsRun(decoders, f);
  }

  /** A step by which someone else removes or replaces the entry of a post. */
  ghost predicate Touches(step: Step, id: TweetId) {
    (step.Remove? || step.OtherServer?) && step.id == id
  }

  /** What the step that touches an entry leaves of it. */
  ghost function Left(step: Step): Option<Bytes> {
    if step.OtherServer? then Some(EncodeEntry(step.fill, step.items)) else None
  }

  /** The last step to touch the entry of a post, if any does. */
  ghost function LastTouch(steps: seq<Step>, id: TweetId): (n: Option<nat>)
    ensures n.None? ==> forall j :: 0 <= j < |steps| ==> !Touches(steps[j], id)
    ensures n.Some? ==> n.value < |steps| && Touches(steps[n.value], id)
    ensures n.Some? ==> forall j :: n.value < j < |steps| ==> !Touches(steps[j], id)
  {
    if steps == [] then None
    else if Touches(steps[|steps| - 1], id) then Some(|steps| - 1)
    else LastTouch(steps[..|steps| - 1], id)
  }

  /** It decides what others leave of the entry. */
  lemma {:induction false} LastTouchDecides(entry: Option<Bytes>, steps: seq<Step>, id: TweetId)
    ensures var n := LastTouch(steps, id);
            EntryOver(entry, steps, id) == if n.Some? then Left(steps[n.value]) else entry
    decreases |steps|
  {
    if steps != [] {
      var rest := steps[1..];
      assert forall j :: 0 < j < |steps| ==> steps[j] == rest[j - 1];
      LastTouchDecides(EntryAfter(entry, steps[0], id), rest, id);
      var n, m := LastTouch(steps, id), LastTouch(rest, id);
      if m.Some? {
        assert Touches(steps[m.value + 1], id);
        assert n == Some(m.value + 1);
      }
    }
  }

  /** From the call that admits a job until its id is unmarked, in every run, the
      entry of its post is the job's own, or what the last removal or store by
      another server left, or, if there was none, unchanged. */
  lemma FillIsALock(decoders: Decoders, f: FillRun)
    requires OnItsWay(decoders, f)
    ensures var entry, id := EntryAt(StateNow(decoders, f), f.job.tweetId), f.job.tweetId;
            || (exists items :: entry == Some(EncodeEntry(f.job.fill, items)))
            || entry == (match LastTouch(f.rest, id)
                         case Some(n) => Left(f.rest[n])
                         case None => EntryAt(StateFound(decoders, f), id))
  {
    var place := FillHoldsLock(decoders, f);
    LastTouchDecides(EntryAt(StateFound(decoders, f), f.job.tweetId), f.rest, f.job.tweetId);
  }

  // ---- Generations ----

  ghost predicate Above(a: Fill, b: Fill) {
    a.filledAtMs > b.filledAtMs || (a.filledAtMs == b.filledAtMs && a.step > b.step)
  }

  /** The generation of the stored entry of a post. */
  ghost function StoredFill(decoders: Decoders, entry: Option<Bytes>): Option<Fill> {
    if entry.Some? && DecodeEnvelope(decoders, entry.value).Some?
    then Some(DecodeEnvelope(decoders, entry.value).value.fill) else None
  }

  /** The write of the job is the next thing the writer may do. */
  ghost predicate WritesNext(decoders: Decoders, f: FillRun, i: nat) {
    && OnItsWay(decoders, f)
    && var writer := StateNow(decoders, f).writer;
       writer.Writing? && i < |writer.writes| && writer.writes[i].0 == f.job.tweetId
  }

  ghost function StateWritten(decoders: Decoders, f: FillRun, i: nat): State
    requires WritesNext(decoders, f, i)
  {
    Apply(decoders, StateNow(decoders, f), Write(i, true))
  }

  /** The write puts the job's own generation and items in the place of what others
      left of the entry that was there as the job was admitted. */
  lemma WriteReplaces(decoders: Decoders, f: FillRun, i: nat)
    requires WritesNext(decoders, f, i)
    ensures EntryAt(StateNow(decoders, f), f.job.tweetId) == EntryLeft(decoders, f)
    ensures EntryAt(StateWritten(decoders, f, i), f.job.tweetId) == Some(StateNow(decoders, f).writer.writes[i].1)
    ensures OwnBytes(f.job, RereadOf(decoders, f), StateNow(decoders, f).writer.writes[i].1)
    ensures StoredFill(decoders, EntryAt(StateWritten(decoders, f, i), f.job.tweetId)) == Some(f.job.fill)
  {
    var place := FillHoldsLock(decoders, f);
    var id, s, s' := f.job.tweetId, StateNow(decoders, f), StateWritten(decoders, f, i);
    assert HasWrite(s.writer, id);
    var items := ItemsOf(f.job, RereadOf(decoders, f)).value;
    FillRunIsRun(decoders, f);
    RunIsSound(decoders, f.start, Steps(f));
    StepIsSound(decoders, s, Write(i, true));
    assert StoredOk(decoders, s'.history, s'.nowMs, id, s'.cache[id]);
    var envelope, _ := StoredDecodes(decoders, s'.history, s'.nowMs, id, s'.cache[id]);
    EntryRoundTrip(decoders, f.job.fill, items);
  }

  /** The generation that a write finds: that of the last store by another server
      since the job was admitted, none if a removal came after it, and if neither
      touched the entry, the one that was stored when the job was admitted. */
  ghost function FillLeft(decoders: Decoders, f: FillRun): Option<Fill>
    requires OnItsWay(decoders, f)
  {
    match LastTouch(f.rest, f.job.tweetId)
    case Some(n) => if f.rest[n].OtherServer? then Some(f.rest[n].fill) else None
    case None => StoredFill(decoders, EntryAt(StateFound(decoders, f), f.job.tweetId))
  }

  lemma StoresOfOthersDecode(decoders: Decoders, f: FillRun, n: nat)
    requires OnItsWay(decoders, f) && n < |f.rest| && f.rest[n].OtherServer?
    ensures StoredFill(decoders, Left(f.rest[n])) == Some(f.rest[n].fill)
  {
    FillRunIsRun(decoders, f);
    var m := |f.before| + 1 + n;
    assert Steps(f)[m] == f.rest[n];
    StepOfRun(decoders, f.start, Steps(f), m);
    EntryRoundTrip(decoders, f.rest[n].fill, f.rest[n].items);
  }

  lemma WriteFindsFillLeft(decoders: Decoders, f: FillRun, i: nat)
    requires WritesNext(decoders, f, i)
    ensures StoredFill(decoders, EntryAt(StateNow(decoders, f), f.job.tweetId)) == FillLeft(decoders, f)
  {
    WriteReplaces(decoders, f, i);
    LastTouchDecides(EntryAt(StateFound(decoders, f), f.job.tweetId), f.rest, f.job.tweetId);
    var n := LastTouch(f.rest, f.job.tweetId);
    if n.Some? && f.rest[n.value].OtherServer? {
      StoresOfOthersDecode(decoders, f, n.value);
    }
  }

  /** The write lowers the stored generation if and only if the generation it finds,
      as the last touch by others since admission or else the entry at admission
      gives it, is above the job's. The same goes for the stored step. */
  lemma GenerationFallsIff(decoders: Decoders, f: FillRun, i: nat)
    requires WritesNext(decoders, f, i)
    ensures var id, left := f.job.tweetId, FillLeft(decoders, f);
            var replaced := StoredFill(decoders, EntryAt(StateNow(decoders, f), id));
            var stored := StoredFill(decoders, EntryAt(StateWritten(decoders, f, i), id));
            && stored == Some(f.job.fill)
            && ((replaced.Some? && Above(replaced.value, stored.value)) <==>
                (left.Some? && Above(left.value, f.job.fill)))
            && ((replaced.Some? && replaced.value.step > stored.value.step) <==>
                (left.Some? && left.value.step > f.job.fill.step))
  {
    WriteReplaces(decoders, f, i);
    WriteFindsFillLeft(decoders, f, i);
  }

  lemma RefreshIsAbove(fill: Fill, context: ReadContext)
    requires DueRefresh(fill, context).Some?
    ensures Above(DueRefresh(fill, context).value, fill)
  {
  }

  /** A refresh of the generation that was stored when it was admitted fails to raise
      the stored generation if and only if the last to touch the entry since is
      another server, with a generation that the refresh is not above. */
  lemma CurrentRefreshRaises(decoders: Decoders, f: FillRun, i: nat, context: ReadContext)
    requires WritesNext(decoders, f, i)
    requires var found := StoredFill(decoders, EntryAt(StateFound(decoders, f), f.job.tweetId));
             found.Some? && DueRefresh(found.value, context) == Some(f.job.fill)
    ensures var replaced := StoredFill(decoders, EntryAt(StateNow(decoders, f), f.job.tweetId));
            var n := LastTouch(f.rest, f.job.tweetId);
            (replaced.Some? && !Above(f.job.fill, replaced.value)) <==>
            (n.Some? && f.rest[n.value].OtherServer? && !Above(f.job.fill, f.rest[n.value].fill))
  {
    WriteFindsFillLeft(decoders, f, i);
    RefreshIsAbove(StoredFill(decoders, EntryAt(StateFound(decoders, f), f.job.tweetId)).value, context);
  }
}
