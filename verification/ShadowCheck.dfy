/** The shadow pass: compares entries of the label cache with the answers the
    lookup gave, refreshes or fills entries, samples hits for a check against
    Manhattan, and repairs the entries that differ from it. */
module ShadowCheck {
  import opened Basics
  import opened Labels
  import opened LabelEntry
  import opened RemoteSource

  datatype CheckClass = AllEqual | TwemcacheDiffers | ManhattanDiffers | DragonflyDiffers | AllDiffer | ManhattanFailed

  datatype Sample = Match | Mismatch

  datatype ShadowHit = ShadowHit(tweetId: TweetId, sample: Sample, entry: Envelope, answer: LabelMap)

  function Filtered(decoders: Decoders, envelope: Envelope, nowMs: I64): Envelope {
    match envelope.status
    case Found(labels) => envelope.(status := Found(FilteredLabels(decoders, labels, nowMs)))
    case NotFound => envelope
  }

  /** The entry says what `labels` says. */
  predicate EntryAnswers(envelope: Envelope, labels: LabelMap) {
    match envelope.status
    case Found(cached) => cached == labels
    case NotFound => labels == map[]
  }

  function MhCheckClass(entry: Envelope, answer: LabelMap, manhattan: Option<LabelMap>): CheckClass {
    match manhattan
    case None => ManhattanFailed
    case Some(labels) =>
      match (EntryAnswers(entry, answer), EntryAnswers(entry, labels), answer == labels)
      case (true, true, _) => AllEqual
      case (false, true, _) => TwemcacheDiffers
      case (true, false, _) => ManhattanDiffers
      case (false, false, true) => DragonflyDiffers
      case (false, false, false) => AllDiffer
  }

  /** An entry says what some labels say when they are the labels it answers with. */
  lemma EntryAnswersIff(envelope: Envelope, labels: LabelMap)
    ensures EntryAnswers(envelope, labels) <==> IntoLabels(envelope) == labels
  {
  }

  /** Filtering an entry keeps its generation and its live labels of known types. */
  lemma FilteredIsLivePart(decoders: Decoders, envelope: Envelope, nowMs: I64)
    ensures Filtered(decoders, envelope, nowMs).fill == envelope.fill
    ensures IsLivePart(decoders, IntoLabels(envelope), nowMs, true, IntoLabels(Filtered(decoders, envelope, nowMs)))
  {
    ExpiryFilterIsExact(decoders, IntoLabels(envelope), nowMs);
  }

  /** The class says which of the entry, the lookup's answer and Manhattan agree. */
  lemma ClassMeans(entry: Envelope, answer: LabelMap, manhattan: Option<LabelMap>)
    ensures var c, own := MhCheckClass(entry, answer, manhattan), IntoLabels(entry);
            && (c.ManhattanFailed? <==> manhattan.None?)
            && (manhattan.Some? ==>
                  && (c.AllEqual? <==> own == answer && own == manhattan.value)
                  && (c.TwemcacheDiffers? <==> own != answer && own == manhattan.value)
                  && (c.ManhattanDiffers? <==> own == answer && own != manhattan.value)
                  && (c.DragonflyDiffers? <==> own != answer && answer == manhattan.value)
                  && (c.AllDiffer? <==> own != answer && own != manhattan.value && answer != manhattan.value))
  {
    EntryAnswersIff(entry, answer);
    if manhattan.Some? {
      EntryAnswersIff(entry, manhattan.value);
    }
  }

  predicate NeedsRepair(c: CheckClass) {
    c.DragonflyDiffers? || c.AllDiffer? || c.ManhattanDiffers?
  }

  /** A time as the signed milliseconds the filters work with. */
  function Signed(nowMs: U64): (r: I64)
    ensures if nowMs <= 0x7FFF_FFFF_FFFF_FFFF then r == nowMs else r == 0x7FFF_FFFF_FFFF_FFFF
  {
    Min(nowMs, 0x7FFF_FFFF_FFFF_FFFF)
  }

  /** The class of a hit under both filters. */
  function FilteredClass(decoders: Decoders, hit: ShadowHit, scan: Option<ManhattanScan>, nowMs: U64): CheckClass {
    var at := Signed(nowMs);
    MhCheckClass(Filtered(decoders, hit.entry, at), FilteredLabels(decoders, hit.answer, at),
                 if scan.Some? then Some(FilteredLabels(decoders, scan.value.labels, at)) else None)
  }

  /** The entry differs from what Manhattan answered, both filtered. */
  predicate Differs(decoders: Decoders, hit: ShadowHit, scan: Option<ManhattanScan>, nowMs: U64) {
    && scan.Some?
    && !EntryAnswers(Filtered(decoders, hit.entry, Signed(nowMs)),
                     FilteredLabels(decoders, scan.value.labels, Signed(nowMs)))
  }

  /** An entry differs from Manhattan when their live labels of known types do. */
  lemma DiffersIff(decoders: Decoders, hit: ShadowHit, scan: Option<ManhattanScan>, nowMs: U64, own: LabelMap,
                   theirs: LabelMap)
    requires scan.Some?
    requires IsLivePart(decoders, IntoLabels(hit.entry), Signed(nowMs), true, own)
    requires IsLivePart(decoders, scan.value.labels, Signed(nowMs), true, theirs)
    ensures !Differs(decoders, hit, None, nowMs)
    ensures Differs(decoders, hit, scan, nowMs) <==> own != theirs
  {
    var at := Signed(nowMs);
    var filtered := Filtered(decoders, hit.entry, at);
    FilteredIsLivePart(decoders, hit.entry, at);
    ExpiryFilterIsExact(decoders, scan.value.labels, at);
    SameLivePart(decoders, IntoLabels(hit.entry), at, own, IntoLabels(filtered));
    SameLivePart(decoders, scan.value.labels, at, theirs, FilteredLabels(decoders, scan.value.labels, at));
    EntryAnswersIff(filtered, theirs);
  }

  lemma SameLivePart(decoders: Decoders, whole: LabelMap, nowMs: I64, a: LabelMap, b: LabelMap)
    requires IsLivePart(decoders, whole, nowMs, true, a) && IsLivePart(decoders, whole, nowMs, true, b)
    ensures a == b
  {
    forall t ensures t in a.Keys <==> t in b.Keys {
    }
    assert a.Keys == b.Keys;
    assert forall t :: t in a ==> a[t] == b[t];
  }

  function RepairOf(hit: ShadowHit, scan: Option<ManhattanScan>, nowMs: U64): FillJob
    requires scan.Some?
  {
    FillJob(hit.tweetId, NewFill(nowMs), Scanned(scan.value.items))
  }

  /** Manhattan's result for hit `i`: each result is used once, by the first hit
      of its post. */
  function ResultFor(hits: seq<ShadowHit>, scans: Scans, i: nat): Option<ManhattanScan>
    requires i < |hits|
  {
    var id := hits[i].tweetId;
    if id in scans && scans[id].Ok? && forall j :: 0 <= j < i ==> hits[j].tweetId != id then Some(scans[id].value)
    else None
  }

  /** The repairs of the first `n` hits, in order. */
  ghost function Repairs(decoders: Decoders, hits: seq<ShadowHit>, scans: Scans, nowMs: U64, n: nat):
    seq<FillJob>
    requires n <= |hits|
  {
    if n == 0 then [] else
    var hit, result := hits[n - 1], ResultFor(hits, scans, n - 1);
    Repairs(decoders, hits, scans, nowMs, n - 1) +
    if Differs(decoders, hit, result, nowMs) then [RepairOf(hit, result, nowMs)] else []
  }

  /** Queues a repair for exactly the hits that Manhattan answered and that
      differ from it, with the items that Manhattan answered. */
  method CheckManhattan(decoders: Decoders, hits: seq<ShadowHit>, scans: Scans, nowMs: U64)
    returns (repairs: seq<FillJob>)
    ensures repairs == Repairs(decoders, hits, scans, nowMs, |hits|)
  {
    repairs := [];
    var manhattan: Scans := scans;
    for i := 0 to |hits|
      invariant repairs == Repairs(decoders, hits, scans, nowMs, i)
      invariant forall id :: id in manhattan <==> id in scans && forall j :: 0 <= j < i ==> hits[j].tweetId != id
      invariant forall id :: id in manhattan ==> manhattan[id] == scans[id]
    {
      var hit := hits[i];
      var result := if hit.tweetId in manhattan && manhattan[hit.tweetId].Ok? then Some(manhattan[hit.tweetId].value)
          else None;
      assert result == ResultFor(hits, scans, i);
      manhattan := manhattan - {hit.tweetId};
      if result.Some? && NeedsRepair(FilteredClass(decoders, hit, result, nowMs)) {
        repairs := repairs + [FillJob(hit.tweetId, NewFill(nowMs), Scanned(result.value.items))];
      }
    }
  }

  /** A job is among the repairs exactly when it writes Manhattan's items for a
      hit that differs from them. */
  lemma {:induction false} RepairedIffDiffers(decoders: Decoders, hits: seq<ShadowHit>, scans: Scans,
                                              nowMs: U64, n: nat, job: FillJob)
    requires n <= |hits|
    ensures job in Repairs(decoders, hits, scans, nowMs, n) <==>
            exists i :: 0 <= i < n && Differs(decoders, hits[i], ResultFor(hits, scans, i), nowMs) &&
                        job == RepairOf(hits[i], ResultFor(hits, scans, i), nowMs)
  {
    if n > 0 {
      RepairedIffDiffers(decoders, hits, scans, nowMs, n - 1, job);
    }
  }

  /** After a repair is written and the entry reread at the same time, with
      Manhattan unchanged, the entry is a hit that agrees with Manhattan: the
      class is AllEqual when the lookup's answer agrees too, and otherwise
      TwemcacheDiffers. */
  lemma RepairConverges(decoders: Decoders, hit: ShadowHit, scan: Option<ManhattanScan>, context: ReadContext)
    requires scan.Some? && LabelsOf(decoders, scan.value.items) == Some(scan.value.labels)
    ensures var job := RepairOf(hit, scan, context.nowMs);
            var read := ReadEntry(decoders, Stored(EncodeEntry(job.fill, scan.value.items)), context);
            && read.Hit?
            && var again := hit.(entry := read.envelope);
               var at := Signed(context.nowMs);
               && !Differs(decoders, again, scan, context.nowMs)
               && FilteredClass(decoders, again, scan, context.nowMs) ==
                  (if FilteredLabels(decoders, hit.answer, at) == FilteredLabels(decoders, scan.value.labels, at)
                   then AllEqual else TwemcacheDiffers)
  {
    EntryRoundTrip(decoders, NewFill(context.nowMs), scan.value.items);
    FiltersCommute(decoders, scan.value.labels, Signed(context.nowMs));
  }

  // ---- Comparing with the lookup's answers ----

  /** The fill a compared read leads to: the refresh a hit has due, or a reread
      of a missing entry when the fill budget admits it. */
  function CompareFill(id: TweetId, read: EntryRead, context: ReadContext, admitted: bool): seq<FillJob> {
    match read
    case Hit(_, refresh) => if refresh.Some? then [FillJob(id, refresh.value, Reread)] else []
    case Miss => if admitted then [FillJob(id, NewFill(context.nowMs), Reread)] else []
    case Failed => []
  }

  function CompareHit(decoders: Decoders, id: TweetId, answer: LabelMap, read: EntryRead, context: ReadContext):
    seq<ShadowHit>
  {
    if !read.Hit? then [] else
    var at := Signed(context.nowMs);
    var same := EntryAnswers(Filtered(decoders, read.envelope, at), FilteredLabels(decoders, answer, at));
    [ShadowHit(id, if same then Match else Mismatch, read.envelope, answer)]
  }

  ghost function CompareFills(decoders: Decoders, answers: seq<(TweetId, LabelMap)>, reply: TweetId -> CacheReply,
                              context: ReadContext, admits: nat -> bool): seq<FillJob>
  {
    if answers == [] then [] else
    var n := |answers| - 1;
    var id := answers[n].0;
    CompareFills(decoders, answers[..n], reply, context, admits) +
    CompareFill(id, ReadEntry(decoders, reply(id), context), context,
                context.switches.shadowFillKeysPerSec > 0 && admits(n))
  }

  ghost function CompareHits(decoders: Decoders, answers: seq<(TweetId, LabelMap)>, reply: TweetId -> CacheReply,
                             context: ReadContext): seq<ShadowHit>
  {
    if answers == [] then [] else
    var n := |answers| - 1;
    var (id, answer) := answers[n];
    CompareHits(decoders, answers[..n], reply, context) +
    CompareHit(decoders, id, answer, ReadEntry(decoders, reply(id), context), context)
  }

  /** Reads the entries of the answered posts and collects the fills they lead
      to and, when checks are on, the hits to sample from. `admits` is the fill
      budget's answer at each position; without a fill budget it is never asked. */
  method Compare(decoders: Decoders, answers: seq<(TweetId, LabelMap)>, reply: TweetId -> CacheReply,
                 context: ReadContext, admits: nat -> bool)
    returns (fills: seq<FillJob>, hits: seq<ShadowHit>)
    ensures fills == CompareFills(decoders, answers, reply, context, admits)
    ensures hits == if context.switches.mhCheckKeysPerSec > 0 then CompareHits(decoders, answers, reply, context)
                    else []
  {
    fills, hits := [], [];
    for i := 0 to |answers|
      invariant fills == CompareFills(decoders, answers[..i], reply, context, admits)
      invariant hits == if context.switches.mhCheckKeysPerSec > 0
                        then CompareHits(decoders, answers[..i], reply, context) else []
    {
      var (id, answer) := answers[i];
      var read := ReadEntry(decoders, reply(id), context);
      assert answers[..i + 1][..i] == answers[..i];
      match read {
        case Hit(envelope, refresh) =>
          if context.switches.mhCheckKeysPerSec > 0 {
            hits := hits + CompareHit(decoders, id, answer, read, context);
          }
          if refresh.Some? {
            fills := fills + [FillJob(id, refresh.value, Reread)];
          }
        case Miss =>
          if context.switches.shadowFillKeysPerSec > 0 && admits(i) {
            fills := fills + [FillJob(id, NewFill(context.nowMs), Reread)];
          }
        case Failed =>
      }
    }
    assert answers[..|answers|] == answers;
  }

  ghost function SeenBy(decoders: Decoders, answers: seq<(TweetId, LabelMap)>, reply: TweetId -> CacheReply,
                        context: ReadContext): map<TweetId, EntryRead>
  {
    map i | 0 <= i < |answers| :: answers[i].0 := ReadEntry(decoders, reply(answers[i].0), context)
  }

  /** What a compared post leads to: the refresh that its hit has due, or the reread of a
      missing entry that the fill budget admits at its position. */
  ghost predicate LeadsTo(decoders: Decoders, answers: seq<(TweetId, LabelMap)>, reply: TweetId -> CacheReply,
                          context: ReadContext, admits: nat -> bool, i: nat, job: FillJob)
  {
    i < |answers| && job.tweetId == answers[i].0 && job.labels.Reread? &&
    match ReadEntry(decoders, reply(answers[i].0), context)
    case Hit(_, refresh) => refresh == Some(job.fill)
    case Miss => context.switches.shadowFillKeysPerSec > 0 && admits(i) && job.fill == Fill(context.nowMs, 0)
    case Failed => false
  }

  /** The fills of a compare are exactly those that its posts lead to. */
  lemma {:induction false} CompareFillsIff(decoders: Decoders, answers: seq<(TweetId, LabelMap)>,
                                           reply: TweetId -> CacheReply, context: ReadContext, admits: nat -> bool,
                                           job: FillJob)
    ensures job in CompareFills(decoders, answers, reply, context, admits) <==>
            exists i: nat :: LeadsTo(decoders, answers, reply, context, admits, i, job)
  {
    if answers != [] {
      CompareFillsIff(decoders, answers[..|answers| - 1], reply, context, admits, job);
      LastLeadsTo(decoders, answers, reply, context, admits, job);
      SomeLeadsTo(decoders, answers, reply, context, admits, job);
    }
  }

  lemma SomeLeadsTo(decoders: Decoders, answers: seq<(TweetId, LabelMap)>, reply: TweetId -> CacheReply,
                    context: ReadContext, admits: nat -> bool, job: FillJob)
    requires answers != []
    ensures var n, init := |answers| - 1, answers[..|answers| - 1];
            (exists i: nat :: LeadsTo(decoders, answers, reply, context, admits, i, job)) <==>
            ((exists i: nat :: LeadsTo(decoders, init, reply, context, admits, i, job)) ||
             LeadsTo(decoders, answers, reply, context, admits, n, job))
  {
    var n, init := |answers| - 1, answers[..|answers| - 1];
    if i: nat :| LeadsTo(decoders, init, reply, context, admits, i, job) {
      assert LeadsTo(decoders, answers, reply, context, admits, i, job);
    }
    if i: nat :| LeadsTo(decoders, answers, reply, context, admits, i, job) && i < n {
      assert LeadsTo(decoders, init, reply, context, admits, i, job);
    }
  }

  lemma LastLeadsTo(decoders: Decoders, answers: seq<(TweetId, LabelMap)>, reply: TweetId -> CacheReply,
                    context: ReadContext, admits: nat -> bool, job: FillJob)
    requires answers != []
    ensures var n := |answers| - 1;
            job in CompareFill(answers[n].0, ReadEntry(decoders, reply(answers[n].0), context), context,
                               context.switches.shadowFillKeysPerSec > 0 && admits(n)) <==>
            LeadsTo(decoders, answers, reply, context, admits, n, job)
  {
  }

  /** Every post that was read as a hit is among the hits to sample from. */
  lemma {:induction false} EveryHitIsCompared(decoders: Decoders, answers: seq<(TweetId, LabelMap)>,
                                              reply: TweetId -> CacheReply, context: ReadContext, i: nat)
    returns (hit: ShadowHit)
    requires i < |answers| && ReadEntry(decoders, reply(answers[i].0), context).Hit?
    ensures hit in CompareHits(decoders, answers, reply, context)
    ensures hit.tweetId == answers[i].0 && hit.answer == answers[i].1
    ensures hit.entry == ReadEntry(decoders, reply(answers[i].0), context).envelope
  {
    var n := |answers| - 1;
    if i == n {
      hit := CompareHit(decoders, answers[n].0, answers[n].1, ReadEntry(decoders, reply(answers[n].0), context),
                        context)[0];
    } else {
      hit := EveryHitIsCompared(decoders, answers[..n], reply, context, i);
    }
  }

  /** The fills of a compare are ones the protocol allows its task. */
  lemma {:induction false} CompareFillsAreJustified(decoders: Decoders, answers: seq<(TweetId, LabelMap)>,
                                                    reply: TweetId -> CacheReply, context: ReadContext,
                                                    admits: nat -> bool, job: FillJob)
    requires job in CompareFills(decoders, answers, reply, context, admits)
    ensures job.labels.Reread? && Justified(job, context, SeenBy(decoders, answers, reply, context), map[])
  {
    var n := |answers| - 1;
    if job in CompareFills(decoders, answers[..n], reply, context, admits) {
      CompareFillsAreJustified(decoders, answers[..n], reply, context, admits, job);
    } else {
      assert answers[n].0 == job.tweetId;
    }
  }

  /** The items of the results that Manhattan answered. */
  ghost function ItemsOf(scans: Scans): map<TweetId, seq<RawSafetyLabel>> {
    map id | id in scans && scans[id].Ok? :: scans[id].value.items
  }

  /** So are the repairs, given the hits' reads and Manhattan's answers. */
  lemma RepairsAreJustified(decoders: Decoders, hits: seq<ShadowHit>, scans: Scans,
                            context: ReadContext, seen: map<TweetId, EntryRead>, job: FillJob)
    requires forall hit :: hit in hits ==> hit.tweetId in seen && seen[hit.tweetId].Hit?
    requires job in Repairs(decoders, hits, scans, context.nowMs, |hits|)
    ensures Justified(job, context, seen, ItemsOf(scans))
  {
    RepairedIffDiffers(decoders, hits, scans, context.nowMs, |hits|, job);
    var i :| 0 <= i < |hits| && Differs(decoders, hits[i], ResultFor(hits, scans, i), context.nowMs) &&
             job == RepairOf(hits[i], ResultFor(hits, scans, i), context.nowMs);
    assert hits[i] in hits;
  }

  // ---- Sampling hits to check ----

  function HitsWhere(hits: seq<ShadowHit>, keep: ShadowHit -> bool): seq<ShadowHit> {
    if hits == [] then []
    else if keep(hits[0]) then [hits[0]] + HitsWhere(hits[1..], keep)
    else HitsWhere(hits[1..], keep)
  }

  /** The hits before the first that the budget refuses. */
  function WhileAdmitted(hits: seq<ShadowHit>, admits: nat -> bool, asked: nat): seq<ShadowHit> {
    if hits == [] || !admits(asked) then []
    else [hits[0]] + WhileAdmitted(hits[1..], admits, asked + 1)
  }

  /** Mismatches first, then the matches of a fixed slice, while the budget lasts. */
  function SampleChecks(hits: seq<ShadowHit>, inSlice: TweetId -> bool, admits: nat -> bool): seq<ShadowHit> {
    WhileAdmitted(HitsWhere(hits, (hit: ShadowHit) => hit.sample.Mismatch?) +
                  HitsWhere(hits, (hit: ShadowHit) => hit.sample.Match? && inSlice(hit.tweetId)), admits, 0)
  }

  lemma {:induction false} HitsWhereMembers(hits: seq<ShadowHit>, keep: ShadowHit -> bool, hit: ShadowHit)
    ensures hit in HitsWhere(hits, keep) <==> hit in hits && keep(hit)
  {
    if hits != [] {
      HitsWhereMembers(hits[1..], keep, hit);
    }
  }

  lemma {:induction false} AdmittedIsPrefix(hits: seq<ShadowHit>, admits: nat -> bool, asked: nat)
    ensures WhileAdmitted(hits, admits, asked) <= hits
  {
    if hits != [] && admits(asked) {
      AdmittedIsPrefix(hits[1..], admits, asked + 1);
      assert hits == [hits[0]] + hits[1..];
    }
  }

  /** Checking goes on until the budget refuses. */
  lemma {:induction false} CheckedUntilRefused(hits: seq<ShadowHit>, admits: nat -> bool, asked: nat)
    ensures var end := asked + |WhileAdmitted(hits, admits, asked)|;
            && (forall turn: nat :: asked <= turn < end ==> admits(turn))
            && (end < asked + |hits| ==> !admits(end))
  {
    if hits != [] && admits(asked) {
      CheckedUntilRefused(hits[1..], admits, asked + 1);
    }
  }

  /** While the budget lasts, every mismatch and every match of the slice is checked. */
  lemma AllAreChecked(hits: seq<ShadowHit>, inSlice: TweetId -> bool, admits: nat -> bool, hit: ShadowHit)
    requires forall n :: admits(n)
    ensures hit in SampleChecks(hits, inSlice, admits) <==>
            hit in hits && (hit.sample.Mismatch? || inSlice(hit.tweetId))
  {
    var isMismatch := (hit: ShadowHit) => hit.sample.Mismatch?;
    var isSlice := (hit: ShadowHit) => hit.sample.Match? && inSlice(hit.tweetId);
    var all := HitsWhere(hits, isMismatch) + HitsWhere(hits, isSlice);
    CheckedUntilRefused(all, admits, 0);
    AdmittedIsPrefix(all, admits, 0);
    assert admits(|WhileAdmitted(all, admits, 0)|);
    assert SampleChecks(hits, inSlice, admits) == all;
    HitsWhereMembers(hits, isMismatch, hit);
    HitsWhereMembers(hits, isSlice, hit);
  }

  /** Sampling invents no hit, and a match is checked only when every mismatch is. */
  lemma MismatchesAreCheckedFirst(hits: seq<ShadowHit>, inSlice: TweetId -> bool, admits: nat -> bool,
                                  matched: ShadowHit, mismatched: ShadowHit)
    requires matched in SampleChecks(hits, inSlice, admits)
    ensures matched in hits
    ensures matched.sample.Match? && mismatched in hits && mismatched.sample.Mismatch? ==>
              inSlice(matched.tweetId) && mismatched in SampleChecks(hits, inSlice, admits)
  {
    var isMismatch := (hit: ShadowHit) => hit.sample.Mismatch?;
    var isSlice := (hit: ShadowHit) => hit.sample.Match? && inSlice(hit.tweetId);
    var first, second := HitsWhere(hits, isMismatch), HitsWhere(hits, isSlice);
    var checked := SampleChecks(hits, inSlice, admits);
    AdmittedIsPrefix(first + second, admits, 0);
    HitsWhereMembers(hits, isMismatch, matched);
    HitsWhereMembers(hits, isSlice, matched);
    HitsWhereMembers(hits, isMismatch, mismatched);
    var i :| 0 <= i < |checked| && checked[i] == matched;
    assert checked[i] == (first + second)[i];
    if matched.sample.Match? && mismatched in first {
      var j :| 0 <= j < |first| && first[j] == mismatched;
      assert i >= |first| > j;
      assert checked[j] == (first + second)[j];
    }
  }

  // ---- A whole shadow pass ----

  /** Every hit of a compare was read as a hit, of that entry. */
  lemma {:induction false} CompareHitsWereSeen(decoders: Decoders, answers: seq<(TweetId, LabelMap)>,
                                               reply: TweetId -> CacheReply, context: ReadContext, hit: ShadowHit)
    requires hit in CompareHits(decoders, answers, reply, context)
    ensures var seen := SeenBy(decoders, answers, reply, context);
            && hit.tweetId in seen && seen[hit.tweetId].Hit? && seen[hit.tweetId].envelope == hit.entry
            && (hit.tweetId, hit.answer) in answers
            && (hit.sample.Match? <==>
                EntryAnswers(Filtered(decoders, hit.entry, Signed(context.nowMs)),
                             FilteredLabels(decoders, hit.answer, Signed(context.nowMs))))
  {
    var n := |answers| - 1;
    if hit in CompareHits(decoders, answers[..n], reply, context) {
      CompareHitsWereSeen(decoders, answers[..n], reply, context, hit);
      SeenByGrows(decoders, answers, reply, context);
    } else {
      assert answers[n].0 == hit.tweetId && answers[n] in answers;
    }
  }

  lemma SeenByGrows(decoders: Decoders, answers: seq<(TweetId, LabelMap)>, reply: TweetId -> CacheReply,
                    context: ReadContext)
    requires answers != []
    ensures var before, all := SeenBy(decoders, answers[..|answers| - 1], reply, context),
                               SeenBy(decoders, answers, reply, context);
            forall id :: id in before ==> id in all && all[id] == before[id]
  {
    var init := answers[..|answers| - 1];
    forall id | id in SeenBy(decoders, init, reply, context)
      ensures id in SeenBy(decoders, answers, reply, context)
    {
      var i :| 0 <= i < |init| && init[i].0 == id;
      assert answers[i].0 == id;
    }
  }

  lemma {:induction false} AdmittedAreHits(hits: seq<ShadowHit>, inSlice: TweetId -> bool, admits: nat -> bool,
                                           hit: ShadowHit)
    requires hit in SampleChecks(hits, inSlice, admits)
    ensures hit in hits
  {
    MismatchesAreCheckedFirst(hits, inSlice, admits, hit, hit);
  }

  function HitIds(hits: seq<ShadowHit>): seq<TweetId> {
    seq(|hits|, i requires 0 <= i < |hits| => hits[i].tweetId)
  }

  /** A shadow pass: compare, then sample and check against Manhattan. A compare that
      does not end in time queues nothing; a scan that does not gives no results. */
  method ShadowPass(decoders: Decoders, answers: seq<(TweetId, LabelMap)>, reply: TweetId -> CacheReply,
                    context: ReadContext, fillAdmits: nat -> bool, inSlice: TweetId -> bool, checkAdmits: nat -> bool,
                    fetch: seq<TweetId> -> Fetch, compareInTime: bool, scanInTime: bool)
    returns (fills: seq<FillJob>, repairs: seq<FillJob>, scans: Scans)
    ensures forall job :: job in fills + repairs ==>
              Justified(job, context, SeenBy(decoders, answers, reply, context), ItemsOf(scans))
    ensures !compareInTime ==> fills == [] && repairs == []
    ensures compareInTime ==> fills == CompareFills(decoders, answers, reply, context, fillAdmits)
    ensures compareInTime && context.switches.mhCheckKeysPerSec > 0 ==>
              var checked := SampleChecks(CompareHits(decoders, answers, reply, context), inSlice, checkAdmits);
              && repairs == Repairs(decoders, checked, scans, context.nowMs, |checked|)
              && scans == if scanInTime then ScanMap(decoders, HitIds(checked), fetch(HitIds(checked))) else map[]
  {
    fills, repairs, scans := [], [], map[];
    if !compareInTime {
      return;
    }
    var hits;
    fills, hits := Compare(decoders, answers, reply, context, fillAdmits);
    var checked := SampleChecks(hits, inSlice, checkAdmits);
    if checked != [] && scanInTime {
      scans := Scan(decoders, HitIds(checked), fetch(HitIds(checked)));
    }
    repairs := CheckManhattan(decoders, checked, scans, context.nowMs);
    PassIsJustified(decoders, answers, reply, context, fillAdmits, hits, inSlice, checkAdmits, scans);
  }

  /** A whole shadow pass queues only fills that the protocol lets its task queue. */
  lemma {:induction false} PassIsJustified(decoders: Decoders, answers: seq<(TweetId, LabelMap)>,
                                           reply: TweetId -> CacheReply, context: ReadContext, fillAdmits: nat -> bool,
                                           hits: seq<ShadowHit>, inSlice: TweetId -> bool, checkAdmits: nat -> bool,
                                           scans: Scans)
    requires hits == [] || hits == CompareHits(decoders, answers, reply, context)
    ensures var seen := SeenBy(decoders, answers, reply, context);
            var checked := SampleChecks(hits, inSlice, checkAdmits);
            && (forall job :: job in CompareFills(decoders, answers, reply, context, fillAdmits) ==>
                  Justified(job, context, seen, ItemsOf(scans)))
            && (forall job :: job in Repairs(decoders, checked, scans, context.nowMs, |checked|) ==>
                  Justified(job, context, seen, ItemsOf(scans)))
  {
    var seen, checked := SeenBy(decoders, answers, reply, context), SampleChecks(hits, inSlice, checkAdmits);
    forall job | job in CompareFills(decoders, answers, reply, context, fillAdmits)
      ensures Justified(job, context, seen, ItemsOf(scans))
    {
      CompareFillsAreJustified(decoders, answers, reply, context, fillAdmits, job);
    }
    forall hit | hit in checked ensures hit.tweetId in seen && seen[hit.tweetId].Hit? {
      AdmittedAreHits(hits, inSlice, checkAdmits, hit);
      CompareHitsWereSeen(decoders, answers, reply, context, hit);
    }
    forall job | job in Repairs(decoders, checked, scans, context.nowMs, |checked|)
      ensures Justified(job, context, seen, ItemsOf(scans))
    {
      RepairsAreJustified(decoders, checked, scans, context, seen, job);
    }
  }
}
