/** Entries of the label cache: their stored form, how old they may be when
    read, and when a read should refresh them. */
module LabelEntry {
  import opened Basics
  import opened Labels
  import opened Wire

  type TweetId = U64

  const VALUE_VERSION: U8 := 2
  const MIN_TTL_SECS: U64 := 60
  const FIRST_REFRESH_MS := 30_000
  const SECOND_REFRESH_MS := 90_000

  datatype Switches = Switches(
    shadowBuckets: U64,
    serveBuckets: U64,
    foundTtlSecs: U64,
    notFoundTtlSecs: U64,
    refreshCutoffMs: U64,
    mhCheckKeysPerSec: U32,
    shadowFillKeysPerSec: U32)

  /** The time and the switches one lookup works with from start to end. */
  datatype ReadContext = ReadContext(nowMs: U64, switches: Switches)

  /** The generation of an entry: when its labels were asked for, and how many
      of the scheduled refreshes it has had. */
  datatype Fill = Fill(filledAtMs: U64, step: U8)

  datatype Status = Found(labels: LabelMap) | NotFound

  datatype Envelope = Envelope(fill: Fill, status: Status)

  function NewFill(nowMs: U64): Fill {
    Fill(nowMs, 0)
  }

  /** A duration in milliseconds, saturating at 64 bits. */
  function Millis(secs: U64): U64 {
    Min(secs * 1000, U64_MAX)
  }

  // ---- Stored form ----

  function StoredItems(items: seq<RawSafetyLabel>): (stored: seq<StoredItem>)
    ensures |stored| == |items|
    ensures forall i :: 0 <= i < |items| ==> stored[i] == StoredItem(items[i].lkey, items[i].mval)
  {
    seq(|items|, i requires 0 <= i < |items| => StoredItem(items[i].lkey, items[i].mval))
  }

  function EncodeEntry(fill: Fill, items: seq<RawSafetyLabel>): Bytes {
    [VALUE_VERSION] + EncodeStoredEntry(StoredEntry(fill.filledAtMs, fill.step, StoredItems(items)))
  }

  /** Stored items as raw labels, unless some key is not four bytes long (the
      values always fit a vector, having been cut out of one). */
  function RawItems(stored: seq<StoredItem>): Option<seq<RawSafetyLabel>> {
    if forall i :: 0 <= i < |stored| ==> Storable(stored[i]) then
      Some(seq(|stored|, i requires 0 <= i < |stored| => RawLabel(stored[i].lkey, stored[i].mval)))
    else None
  }

  /** What an entry made from decoded items shows: nothing for no items,
      otherwise their labels of known types. */
  function StatusOf(decoders: Decoders, items: seq<RawSafetyLabel>): Option<Status> {
    if items == [] then Some(NotFound) else
    match LabelsOf(decoders, items)
    case None => None
    case Some(labels) => Some(Found(KnownTypesOnly(decoders, labels)))
  }

  function DecodeEnvelope(decoders: Decoders, bytes: Bytes): Option<Envelope> {
    if bytes == [] || bytes[0] != VALUE_VERSION then None else
    match DecodeStoredEntry(bytes[1..])
    case None => None
    case Some(entry) =>
      if entry.step > 0xFF then None else
      var fill := Fill(entry.filledAtMs, entry.step);
      if entry.items == [] then Some(Envelope(fill, NotFound)) else
      match RawItems(entry.items)
      case None => None
      case Some(items) =>
        match LabelsOf(decoders, items)
        case None => None
        case Some(labels) => Some(Envelope(fill, Found(KnownTypesOnly(decoders, labels))))
  }

  lemma RawItemsInverse(items: seq<RawSafetyLabel>)
    ensures RawItems(StoredItems(items)) == Some(items)
  {
    assert RawItems(StoredItems(items)).Some?;
    assert RawItems(StoredItems(items)).value == items;
  }

  /** A stored entry decodes to its own generation and the status of its items;
      it fails to decode exactly when its labels do. */
  lemma EntryRoundTrip(decoders: Decoders, fill: Fill, items: seq<RawSafetyLabel>)
    ensures DecodeEnvelope(decoders, EncodeEntry(fill, items)) ==
            match StatusOf(decoders, items)
            case None => None
            case Some(status) => Some(Envelope(fill, status))
  {
    var entry := StoredEntry(fill.filledAtMs, fill.step, StoredItems(items));
    StoredEntryRoundTrip(entry);
    assert EncodeEntry(fill, items)[1..] == EncodeStoredEntry(entry);
    RawItemsInverse(items);
  }

  /** A value begins with the version, which is 2; any other value is not an entry. */
  lemma EntryHasVersion(decoders: Decoders, fill: Fill, items: seq<RawSafetyLabel>, bytes: Bytes)
    ensures EncodeEntry(fill, items)[0] == 2
    ensures bytes == [] || bytes[0] != 2 ==> DecodeEnvelope(decoders, bytes).None?
  {
  }

  /** An entry whose step does not fit a byte, or with an item whose key is not four bytes
      long, is not decoded. */
  lemma BadEntriesAreRejected(decoders: Decoders, entry: StoredEntry)
    requires forall i :: 0 <= i < |entry.items| ==> Fits(entry.items[i])
    requires entry.step > 255 || exists i :: 0 <= i < |entry.items| && |entry.items[i].lkey| != 4
    ensures DecodeEnvelope(decoders, [VALUE_VERSION] + EncodeStoredEntry(entry)).None?
  {
    StoredEntryRoundTrip(entry);
    assert ([VALUE_VERSION] + EncodeStoredEntry(entry))[1..] == EncodeStoredEntry(entry);
  }

  // ---- Age ----

  function TtlMs(status: Status, switches: Switches): U64 {
    var ttl := if status.Found? then switches.foundTtlSecs else switches.notFoundTtlSecs;
    Millis(Max(ttl, MIN_TTL_SECS))
  }

  predicate IsLive(envelope: Envelope, context: ReadContext) {
    SaturatingSub(context.nowMs, envelope.fill.filledAtMs) < TtlMs(envelope.status, context.switches)
  }

  // ---- Refresh ----

  /** How many of the scheduled refreshes are due at an age. */
  function DueSteps(ageMs: U64): U8 {
    if ageMs < FIRST_REFRESH_MS then 0 else if ageMs < SECOND_REFRESH_MS then 1 else 2
  }

  function DueRefresh(fill: Fill, context: ReadContext): Option<Fill> {
    var cutoffMs := context.switches.refreshCutoffMs;
    if fill.filledAtMs < cutoffMs <= context.nowMs then Some(NewFill(context.nowMs)) else
    var step := DueSteps(SaturatingSub(context.nowMs, fill.filledAtMs));
    if step > fill.step then Some(Fill(fill.filledAtMs, step)) else None
  }

  /** Exactly when a refresh is due, and which: a new life for an entry from before a
      cutoff that has come; otherwise the first step from an age of 30 s on, the second
      from 90 s on, for an entry that has not had it. */
  lemma RefreshIsDueIff(fill: Fill, context: ReadContext)
    ensures var age, cutoffMs := Max(0, context.nowMs - fill.filledAtMs), context.switches.refreshCutoffMs;
            var restarts := fill.filledAtMs < cutoffMs && cutoffMs <= context.nowMs;
            var refresh := DueRefresh(fill, context);
            && (restarts ==> refresh == Some(Fill(context.nowMs, 0)))
            && (!restarts && age >= 90_000 && fill.step < 2 ==> refresh == Some(Fill(fill.filledAtMs, 2)))
            && (!restarts && 30_000 <= age < 90_000 && fill.step < 1 ==> refresh == Some(Fill(fill.filledAtMs, 1)))
            && (refresh.Some? ==> restarts || (age >= 90_000 && fill.step < 2) || (age >= 30_000 && fill.step < 1))
  {
  }

  /** A refresh either restarts the entry's life at the time of the read, for
      the cutoff, or keeps the life the entry had and only raises its step. */
  lemma RefreshKeepsLife(fill: Fill, context: ReadContext, next: Fill, status: Status, later: ReadContext)
    requires DueRefresh(fill, context) == Some(next)
    ensures next == NewFill(context.nowMs) ||
            (next.filledAtMs == fill.filledAtMs && next.step > fill.step &&
             (IsLive(Envelope(next, status), later) <==> IsLive(Envelope(fill, status), later)))
    ensures next.filledAtMs != fill.filledAtMs ==>
              fill.filledAtMs < context.switches.refreshCutoffMs <= next.filledAtMs == context.nowMs
  {
  }

  /** Refreshes an entry can still have under a fixed cutoff. */
  ghost function RefreshesLeft(fill: Fill, cutoffMs: U64): nat {
    Max(0, 2 - fill.step) + if fill.filledAtMs < cutoffMs then 3 else 0
  }

  /** Generations of one entry, each the refresh due in the context that read
      the one before. The contexts share a cutoff; their times are any. */
  ghost predicate RefreshChain(fills: seq<Fill>, contexts: seq<ReadContext>, cutoffMs: U64) {
    && |fills| == |contexts| + 1
    && forall i :: 0 <= i < |contexts| ==>
         && contexts[i].switches.refreshCutoffMs == cutoffMs
         && DueRefresh(fills[i], contexts[i]) == Some(fills[i + 1])
  }

  lemma {:induction false} ChainUsesUpRefreshes(fills: seq<Fill>, contexts: seq<ReadContext>, cutoffMs: U64)
    requires RefreshChain(fills, contexts, cutoffMs)
    ensures |contexts| + RefreshesLeft(fills[|contexts|], cutoffMs) <= RefreshesLeft(fills[0], cutoffMs)
  {
    if contexts != [] {
      var n := |contexts| - 1;
      ChainUsesUpRefreshes(fills[..n + 1], contexts[..n], cutoffMs);
      assert DueRefresh(fills[n], contexts[n]) == Some(fills[n + 1]);
      RefreshUsesOneUp(fills[n], contexts[n]);
    }
  }

  lemma RefreshUsesOneUp(fill: Fill, context: ReadContext)
    requires DueRefresh(fill, context).Some?
    ensures var cutoffMs := context.switches.refreshCutoffMs;
            RefreshesLeft(DueRefresh(fill, context).value, cutoffMs) < RefreshesLeft(fill, cutoffMs)
  {
  }

  /** An entry is refreshed at most five times under one cutoff. */
  lemma RefreshesStop(fills: seq<Fill>, contexts: seq<ReadContext>, cutoffMs: U64)
    requires RefreshChain(fills, contexts, cutoffMs)
    ensures |contexts| <= 5
  {
    ChainUsesUpRefreshes(fills, contexts, cutoffMs);
  }

  /** Five refreshes do happen: both steps, the cutoff, and both steps again. */
  lemma FiveRefreshesHappen() returns (fills: seq<Fill>, contexts: seq<ReadContext>)
    ensures RefreshChain(fills, contexts, 100_000) && |contexts| == 5
  {
    var switches := Switches(0, 0, 0, 0, 100_000, 0, 0);
    var at := (nowMs: U64) => ReadContext(nowMs, switches);
    contexts := [at(30_000), at(90_000), at(100_000), at(130_000), at(190_000)];
    fills := [Fill(0, 0), Fill(0, 1), Fill(0, 2), Fill(100_000, 0), Fill(100_000, 1), Fill(100_000, 2)];
  }

  // ---- Reading ----

  /** What the cache says of one key. */
  datatype CacheReply = Stored(bytes: Bytes) | Absent | Failure | NoReply | BadKey

  datatype EntryRead = Hit(envelope: Envelope, refresh: Option<Fill>) | Miss | Failed

  function ReadEntry(decoders: Decoders, reply: CacheReply, context: ReadContext): EntryRead {
    match reply
    case Stored(bytes) =>
      (match DecodeEnvelope(decoders, bytes)
       case Some(envelope) =>
         if IsLive(envelope, context) then Hit(envelope, DueRefresh(envelope.fill, context)) else Miss
       case None => Miss)
    case Absent => Miss
    case Failure => Failed
    case NoReply => Failed
    case BadKey => Failed
  }

  /** Reading a stored entry: a hit while its age is below the TTL of its kind, of posts
      with or without labels, which is at least a minute; then it shows the entry's
      generation and, for a post with labels, each label of a known type. */
  lemma ReadIsHitIff(decoders: Decoders, fill: Fill, items: seq<RawSafetyLabel>, context: ReadContext)
    requires LabelsOf(decoders, items).Some?
    ensures var ttlSecs := if items == [] then context.switches.notFoundTtlSecs else context.switches.foundTtlSecs;
            var read := ReadEntry(decoders, Stored(EncodeEntry(fill, items)), context);
            if Max(0, context.nowMs - fill.filledAtMs) < Min(1000 * Max(ttlSecs, 60), U64_MAX) then
              && read.Hit? && read.envelope.fill == fill && read.refresh == DueRefresh(fill, context)
              && (if items == [] then read.envelope.status.NotFound?
                  else ShowsKnownTypes(decoders, items, read.envelope))
            else read == Miss
  {
    EntryRoundTrip(decoders, fill, items);
    forall t ensures t in LabelsOf(decoders, items).value && t in decoders.knownTypes <==>
                     t in KnownTypesOnly(decoders, LabelsOf(decoders, items).value)
    {
      TypeFilterIsExact(decoders, LabelsOf(decoders, items).value, t);
    }
  }

  /** The envelope has the labels of the items that are of known types: each of them,
      unchanged, and no other. */
  ghost predicate ShowsKnownTypes(decoders: Decoders, items: seq<RawSafetyLabel>, envelope: Envelope) {
    && envelope.status.Found? && LabelsOf(decoders, items).Some?
    && var shown, all := envelope.status.labels, LabelsOf(decoders, items).value;
       && (forall t :: t in shown <==> t in all && t in decoders.knownTypes)
       && (forall t :: t in shown ==> shown[t] == all[t])
  }

  /** Any other reply: an absent or undecodable entry is a miss; an error, a missing
      reply and a bad key are failures. */
  lemma ReadIsFailureIff(decoders: Decoders, reply: CacheReply, context: ReadContext)
    ensures ReadEntry(decoders, reply, context).Failed? <==> reply.Failure? || reply.NoReply? || reply.BadKey?
    ensures reply.Absent? ==> ReadEntry(decoders, reply, context) == Miss
    ensures reply.Stored? && DecodeEnvelope(decoders, reply.bytes).None? ==> ReadEntry(decoders, reply, context) == Miss
  {
  }

  method Read(decoders: Decoders, ids: seq<TweetId>, reply: TweetId -> CacheReply, context: ReadContext)
    returns (seen: seq<(TweetId, EntryRead)>)
    ensures |seen| == |ids|
    ensures forall i :: 0 <= i < |ids| ==> seen[i] == (ids[i], ReadEntry(decoders, reply(ids[i]), context))
  {
    seen := [];
    for i := 0 to |ids|
      invariant |seen| == i
      invariant forall k :: 0 <= k < i ==> seen[k] == (ids[k], ReadEntry(decoders, reply(ids[k]), context))
    {
      seen := seen + [(ids[i], ReadEntry(decoders, reply(ids[i]), context))];
    }
  }

  function IntoLabels(envelope: Envelope): LabelMap {
    match envelope.status
    case Found(labels) => labels
    case NotFound => map[]
  }

  // ---- Fill jobs ----

  datatype FillLabels = Scanned(items: seq<RawSafetyLabel>) | Reread

  datatype FillJob = FillJob(tweetId: TweetId, fill: Fill, labels: FillLabels)

  /** The fill jobs a lookup or a shadow pass may queue, from what it read in
      the label cache and what it scanned in Manhattan: the refresh that a hit
      has due, a reread after a miss, or items scanned by this very pass. */
  ghost predicate Justified(job: FillJob, context: ReadContext,
                            seen: map<TweetId, EntryRead>, scans: map<TweetId, seq<RawSafetyLabel>>)
  {
    && job.tweetId in seen
    && match job.labels
       case Reread => job.fill in DueReread(seen[job.tweetId], context)
       case Scanned(items) =>
         && !seen[job.tweetId].Failed?
         && job.tweetId in scans && scans[job.tweetId] == items
         && job.fill == NewFill(context.nowMs)
  }

  /** The generations under which an entry may be reread after it was seen so. */
  ghost function DueReread(read: EntryRead, context: ReadContext): set<Fill> {
    match read
    case Hit(_, refresh) => if refresh.Some? then {refresh.value} else {}
    case Miss => {NewFill(context.nowMs)}
    case Failed => {}
  }
}
