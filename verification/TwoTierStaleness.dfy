/** The staleness of every answer of the whole lookup. Each turn of a lookup falls at
    some point of a run; what other tasks do to the hot-key cache before the lookup
    and between its turns is what the run's steps do, with any evictions; and what the
    lookup caches itself are steps of the run too. So the cache mirrors the protocol's
    at every turn, and the bounds that hold in every run hold of the answers of
    `HotKeyCache.Get`. */
module TwoTierStaleness {
  import opened Basics
  import opened Labels
  import opened LabelEntry
  import opened LabelCacheProtocol
  import opened Staleness
  import opened RemoteSource
  import opened SafetyLabelSource

  // ---- The hot-key cache mirrors the protocol's ----

  ghost function EntryOf(hot: HotEntry): Entry {
    Entry(hot.labels, hot.insertedAtMs + HOT_TTL_MS)
  }

  type HotEntries = map<TweetId, HotEntry>

  /** Every entry of the cache is the protocol's, which may have more. */
  ghost predicate Mirrors(cache: Shared, hot: HotEntries) {
    forall id :: id in cache ==> id in hot && cache[id] == EntryOf(hot[id])
  }

  /** What a step of the run does to the cache. */
  ghost function CacheAfter(cache: Shared, s: State, step: Step): Shared {
    match step
    case HotRemove(id) => cache - {id}
    case Backfill(_, id, labels) => cache[id := Entry(labels, s.nowMs + HOT_TTL_MS)]
    case _ => cache
  }

  lemma {:induction false} StepKeepsMirrors(decoders: Decoders, s: State, step: Step, cache: Shared)
    requires Mirrors(cache, s.hot) && Enabled(decoders, s, step)
    ensures Mirrors(CacheAfter(cache, s, step), Apply(decoders, s, step).hot)
  {
    if !step.HotRemove? && !step.Backfill? {
      assert Apply(decoders, s, step).hot == s.hot;
    }
  }

  lemma {:induction false} EvictionKeepsMirrors(hot: HotEntries, cache: Shared, gone: set<TweetId>)
    requires Mirrors(cache, hot)
    ensures Mirrors(cache - gone, hot)
  {
  }

  /** What steps taken from `s` do to the cache. */
  ghost function CacheAlong(decoders: Decoders, cache: Shared, s: State, steps: seq<Step>): Shared
    decreases |steps|
  {
    if steps == [] || !Enabled(decoders, s, steps[0]) then cache else
    CacheAlong(decoders, CacheAfter(cache, s, steps[0]), Apply(decoders, s, steps[0]), steps[1..])
  }

  /** So what other tasks do between two turns, as steps of the run, keeps the mirror,
      with any evictions besides. */
  lemma {:induction false} StepsKeepMirrors(decoders: Decoders, s: State, steps: seq<Step>, cache: Shared,
                                            gone: set<TweetId>)
    requires RunFrom(decoders, s, steps).Some? && Mirrors(cache, s.hot)
    ensures Mirrors(CacheAlong(decoders, cache, s, steps) - gone, RunFrom(decoders, s, steps).value.hot)
    decreases |steps|
  {
    if steps == [] {
      EvictionKeepsMirrors(s.hot, cache, gone);
    } else {
      StepKeepsMirrors(decoders, s, steps[0], cache);
      StepsKeepMirrors(decoders, Apply(decoders, s, steps[0]), steps[1..], CacheAfter(cache, s, steps[0]), gone);
    }
  }

  /** Task `k` is a lookup that was shown `v` and scanned so. */
  ghost predicate IsLookup(s: State, k: nat, v: View, scans: Scans) {
    k < |s.tasks| &&
    var task := TaskOf(v, scans);
    s.tasks[k].context == task.context && s.tasks[k].seen == task.seen && s.tasks[k].scans == task.scans
  }

  /** Caching a good answer for a post of the label cache is a step that the protocol
      allows the lookup, and it keeps the mirror. */
  lemma {:induction false} BackfillIsAStep(decoders: Decoders, fetch: Fetch, v: View, r: Reply, s: State, k: nat,
                                           id: TweetId, cache: Shared)
    requires LookedUp(v, ScanMap(decoders, r.fallback, fetch), r)
    requires IsLookup(s, k, v, ScanMap(decoders, r.fallback, fetch)) && Mirrors(cache, s.hot)
    requires id in v.served && id in r.results && r.results[id].Ok?
    ensures var step := Backfill(k, id, r.results[id].value);
            && Enabled(decoders, s, step)
            && Mirrors(cache[id := Entry(r.results[id].value, s.nowMs + HOT_TTL_MS)], Apply(decoders, s, step).hot)
  {
    LookupIsATask(decoders, fetch, v, r);
    assert Answers(decoders, s.tasks[k], id, r.results[id].value);
    StepKeepsMirrors(decoders, s, Backfill(k, id, r.results[id].value), cache);
  }

  // ---- Turns of a lookup ----

  /** The protocol's hot-key entries around each turn: as the last turn left them, and
      as the turn finds them. */
  datatype Hots = Hots(from: nat -> HotEntries, at: nat -> HotEntries)

  /** What other tasks make of the cache before each turn keeps the mirror. */
  ghost predicate Follows(hots: Hots, meanwhile: Meanwhile) {
    forall n, cache {:trigger meanwhile(n, cache)} ::
      Mirrors(cache, hots.from(n)) ==> Mirrors(meanwhile(n, cache), hots.at(n))
  }

  /** Nothing changes at turns `first` to `first + n - 1`. */
  ghost predicate OnlyReads(hots: Hots, first: nat, n: nat) {
    forall turn: nat :: first <= turn < first + n ==> hots.from(turn + 1) == hots.at(turn)
  }

  lemma {:induction false} ReadingKeepsMirrors(hots: Hots, meanwhile: Meanwhile, first: nat, cache: Shared, n: nat)
    requires Follows(hots, meanwhile) && OnlyReads(hots, first, n) && Mirrors(cache, hots.from(first))
    ensures Mirrors(Turned(meanwhile, first, cache, n), hots.from(first + n))
  {
    if n > 0 {
      ReadingKeepsMirrors(hots, meanwhile, first, cache, n - 1);
      var turn := first + n - 1;
      assert Mirrors(meanwhile(turn, Turned(meanwhile, first, cache, n - 1)), hots.at(turn));
      assert hots.from(turn + 1) == hots.at(turn);
    }
  }

  /** An answer that is cached at a turn is cached by the protocol as well. */
  ghost predicate OwnTurn(hots: Hots, b: BackfillPass, id: TweetId, turn: nat) {
    if id in b.remote && Cacheable(b.remote[id], b.futureDated(id)) then
      && id in hots.from(turn + 1)
      && EntryOf(hots.from(turn + 1)[id]) == Entry(b.remote[id].value, b.clock(id) + HOT_TTL_MS)
      && forall other :: other in hots.at(turn) && other != id ==>
           other in hots.from(turn + 1) && hots.from(turn + 1)[other] == hots.at(turn)[other]
    else hots.from(turn + 1) == hots.at(turn)
  }

  ghost predicate OwnTurns(hots: Hots, b: BackfillPass, order: seq<TweetId>) {
    forall m: nat :: m < |order| ==> OwnTurn(hots, b, order[m], b.first + m)
  }

  lemma {:induction false} BackfillKeepsMirrors(hots: Hots, b: BackfillPass, order: seq<TweetId>)
    requires Follows(hots, b.meanwhile) && b.enabled && Mirrors(b.cache, hots.from(b.first)) && OwnTurns(hots, b, order)
    ensures Mirrors(Backfilled(b, order), hots.from(b.first + |order|))
  {
    if order != [] {
      var n := |order| - 1;
      BackfillKeepsMirrors(hots, b, order[..n]);
      assert Mirrors(b.meanwhile(b.first + n, Backfilled(b, order[..n])), hots.at(b.first + n));
      assert OwnTurn(hots, b, order[n], b.first + n);
    }
  }

  // ---- A lookup in a run ----

  /** A run, and where in it the turns of a lookup fall: what other tasks do before
      turn `n` are the steps from `from(n)` up to `at(n)`, with `gone(n)` evicted
      besides; `goneBefore` was evicted before the lookup. `hots` are the run's hot-key
      entries at those points. */
  datatype Timeline = Timeline(start: U64, steps: seq<Step>, from: nat -> nat, at: nat -> nat,
                               gone: nat -> set<TweetId>, goneBefore: set<TweetId>, hots: Hots)

  ghost predicate IsTimeline(decoders: Decoders, tl: Timeline) {
    Run(decoders, tl.start, tl.steps).Some? && forall n :: IsTurn(decoders, tl, n)
  }

  ghost predicate IsTurn(decoders: Decoders, tl: Timeline, n: nat)
    requires Run(decoders, tl.start, tl.steps).Some?
  {
    && tl.from(n) <= tl.at(n) <= |tl.steps|
    && tl.hots.from(n) == StateAt(decoders, tl.start, tl.steps, tl.from(n)).hot
    && tl.hots.at(n) == StateAt(decoders, tl.start, tl.steps, tl.at(n)).hot
  }

  /** The state when turn `n` comes. */
  ghost function StateOfTurn(decoders: Decoders, tl: Timeline, n: nat): State
    requires IsTimeline(decoders, tl)
  {
    assert IsTurn(decoders, tl, n);
    StateAt(decoders, tl.start, tl.steps, tl.at(n))
  }

  /** What the first `n` steps of the run make of an empty cache. */
  ghost function RunCache(decoders: Decoders, start: U64, steps: seq<Step>, n: nat): Shared
    requires n <= |steps|
  {
    CacheAlong(decoders, map[], Init(start), steps[..n])
  }

  /** What other tasks make of the cache before turn `n` is what the run's steps do,
      with evictions. */
  ghost predicate OthersAt(decoders: Decoders, tl: Timeline, meanwhile: Meanwhile, n: nat)
    requires IsTimeline(decoders, tl)
  {
    assert IsTurn(decoders, tl, n);
    forall cache {:trigger meanwhile(n, cache)} :: meanwhile(n, cache) ==
      CacheAlong(decoders, cache, StateAt(decoders, tl.start, tl.steps, tl.from(n)), tl.steps[tl.from(n)..tl.at(n)]) -
      tl.gone(n)
  }

  /** The lookup only reads at turns `first` to `first + n - 1`. */
  ghost predicate ReadTurns(tl: Timeline, first: nat, n: nat) {
    forall turn: nat :: first <= turn < first + n ==> tl.from(turn + 1) == tl.at(turn)
  }

  /** The pass over the hot-key cache falls into the run: what it finds is what the
      run's steps, some of them between its turns, and evictions have made of an empty
      cache, and the clock is the run's. */
  ghost predicate PassInRun(decoders: Decoders, tl: Timeline, p: LocalPass) {
    && IsTimeline(decoders, tl) && tl.from(0) <= |tl.steps|
    && p.cache == RunCache(decoders, tl.start, tl.steps, tl.from(0)) - tl.goneBefore
    && (forall n :: OthersAt(decoders, tl, p.meanwhile, n))
    && ReadTurns(tl, 0, |p.ids|)
    && forall i: nat :: i < |p.ids| ==> p.clock(i) == StateOfTurn(decoders, tl, i).nowMs
  }

  // ---- The mirror follows ----

  lemma {:induction false} StretchOfRun(decoders: Decoders, start: U64, steps: seq<Step>, a: nat, b: nat)
    requires Run(decoders, start, steps).Some? && a <= b <= |steps|
    ensures RunFrom(decoders, StateAt(decoders, start, steps, a), steps[a..b]) ==
            Some(StateAt(decoders, start, steps, b))
  {
    RunPrefix(decoders, start, steps, a);
    RunPrefix(decoders, start, steps, b);
    assert steps[..a] + steps[a..b] == steps[..b];
    RunThen(decoders, start, steps[..a], steps[a..b]);
  }

  lemma {:induction false} RunCacheMirrors(decoders: Decoders, start: U64, steps: seq<Step>, n: nat, gone: set<TweetId>)
    requires Run(decoders, start, steps).Some? && n <= |steps|
    ensures Mirrors(RunCache(decoders, start, steps, n) - gone, StateAt(decoders, start, steps, n).hot)
  {
    StretchOfRun(decoders, start, steps, 0, n);
    assert steps[0..n] == steps[..n] && steps[..0] == [];
    StepsKeepMirrors(decoders, Init(start), steps[..n], map[], gone);
  }

  lemma {:induction false} OthersKeepMirrors(decoders: Decoders, tl: Timeline, meanwhile: Meanwhile, n: nat,
                                             cache: Shared)
    requires IsTimeline(decoders, tl) && OthersAt(decoders, tl, meanwhile, n) && Mirrors(cache, tl.hots.from(n))
    ensures Mirrors(meanwhile(n, cache), tl.hots.at(n))
  {
    assert IsTurn(decoders, tl, n);
    var a, b := tl.from(n), tl.at(n);
    StretchOfRun(decoders, tl.start, tl.steps, a, b);
    StepsKeepMirrors(decoders, StateAt(decoders, tl.start, tl.steps, a), tl.steps[a..b], cache, tl.gone(n));
  }

  lemma {:induction false} OthersFollow(decoders: Decoders, tl: Timeline, meanwhile: Meanwhile)
    requires IsTimeline(decoders, tl) && forall n :: OthersAt(decoders, tl, meanwhile, n)
    ensures Follows(tl.hots, meanwhile)
  {
    forall n, cache | Mirrors(cache, tl.hots.from(n)) ensures Mirrors(meanwhile(n, cache), tl.hots.at(n)) {
      assert OthersAt(decoders, tl, meanwhile, n);
      OthersKeepMirrors(decoders, tl, meanwhile, n, cache);
    }
  }

  lemma {:induction false} ReadTurnsOnlyRead(decoders: Decoders, tl: Timeline, first: nat, n: nat)
    requires IsTimeline(decoders, tl) && ReadTurns(tl, first, n)
    ensures OnlyReads(tl.hots, first, n)
  {
    forall turn: nat | first <= turn < first + n ensures tl.hots.from(turn + 1) == tl.hots.at(turn) {
      assert IsTurn(decoders, tl, turn) && IsTurn(decoders, tl, turn + 1);
      assert tl.from(turn + 1) == tl.at(turn);
    }
  }

  /** A pass in a run finds the cache mirroring the run, and so do its turns. */
  lemma {:induction false} PassMirrors(decoders: Decoders, tl: Timeline, p: LocalPass)
    requires PassInRun(decoders, tl, p)
    ensures Follows(tl.hots, p.meanwhile) && OnlyReads(tl.hots, 0, |p.ids|) && Mirrors(p.cache, tl.hots.from(0))
  {
    assert IsTurn(decoders, tl, 0);
    OthersFollow(decoders, tl, p.meanwhile);
    ReadTurnsOnlyRead(decoders, tl, 0, |p.ids|);
    RunCacheMirrors(decoders, tl.start, tl.steps, tl.from(0), tl.goneBefore);
  }

  lemma {:induction false} SeenIsMirrored(hots: Hots, p: LocalPass, i: nat)
    requires Follows(hots, p.meanwhile) && OnlyReads(hots, 0, |p.ids|) && Mirrors(p.cache, hots.from(0)) && i < |p.ids|
    ensures Mirrors(Seen(p, i), hots.at(i))
  {
    ReadingKeepsMirrors(hots, p.meanwhile, 0, p.cache, i);
    assert Mirrors(p.meanwhile(i, Turned(p.meanwhile, 0, p.cache, i)), hots.at(i));
  }

  // ---- Every answer is young ----

  /** The answer is the live part of a Manhattan state of the post, less than
      `limit` older than `asOf`. */
  ghost predicate YoungAnswer(decoders: Decoders, s: State, id: TweetId, answer: Lookup, nowMs: I64, asOf: int,
                              limit: int)
  {
    answer.Ok? &&
    exists t: U64 :: t <= s.nowMs && asOf - t < limit && LiveLabelsOf(decoders, s.history, id, t, nowMs, answer.value)
  }

  /** How old what a hot-key entry shows may be: the TTL of the hot-key cache, plus
      the longest TTL of the label cache, plus the time from the start of the lookup
      that fetched it until it was cached. */
  ghost function HotLimit(hot: HotEntry): int {
    HOT_TTL_MS + AgeLimit(hot.fetched.switches) + (hot.insertedAtMs - hot.fetched.nowMs)
  }

  /** A hit of the hot-key cache, judged at the time of its position. */
  lemma {:induction false} HitsAreYoungEnough(decoders: Decoders, tl: Timeline, p: LocalPass, i: nat, nowMs: I64)
    requires PassInRun(decoders, tl, p) && HitAt(p, i)
    ensures var s, id := StateOfTurn(decoders, tl, i), p.ids[i];
            id in s.hot &&
            YoungAnswer(decoders, s, id, LiveAnswer(Ok(Seen(p, i)[id].labels), nowMs), nowMs, p.clock(i),
                        HotLimit(s.hot[id]))
  {
    PassMirrors(decoders, tl, p);
    SeenIsMirrored(tl.hots, p, i);
    assert IsTurn(decoders, tl, i);
    RunPrefix(decoders, tl.start, tl.steps, tl.at(i));
    HotAnswersAreYoung(decoders, tl.start, tl.steps[..tl.at(i)], p.ids[i], nowMs);
  }

  /** A good answer that the label cache or Manhattan gave for a post of the label
      cache, judged at the start of the lookup. */
  lemma {:induction false} FetchedAnswersAreYoung(decoders: Decoders, start: U64, steps: seq<Step>, k: nat,
                                                  fetch: Fetch, v: View, r: Reply,
                               id: TweetId, nowMs: I64)
    requires Run(decoders, start, steps).Some?
    requires IsLookup(Run(decoders, start, steps).value, k, v, ScanMap(decoders, r.fallback, fetch))
    requires LookedUp(v, ScanMap(decoders, r.fallback, fetch), r)
    requires id in v.served && id in r.results && r.results[id].Ok?
    ensures YoungAnswer(decoders, Run(decoders, start, steps).value, id, LiveAnswer(r.results[id], nowMs), nowMs,
                        v.context.nowMs, AgeLimit(v.context.switches))
  {
    LookupIsATask(decoders, fetch, v, r);
    LookupAnswersAreYoung(decoders, start, steps, k, id, r.results[id].value, nowMs);
  }

  /** A whole lookup in a run: its pass over the hot-key cache, and the remote lookup of
      the misses as task `k`, complete when `n` steps have been taken. */
  ghost predicate LookupInRun(tl: Timeline, enabled: bool, call: Call, before: Shared, out: Outcome, k: nat, n: nat) {
    var decoders := call.world.decoders;
    && PassInRun(decoders, tl, LocalPassOf(enabled, call, before))
    && n <= |tl.steps|
    && IsLookup(StateAt(decoders, tl.start, tl.steps, n), k,
                ViewOf(call.world, call.context, out.misses, out.expired), ScansOf(call.world, out.reply.fallback))
  }

  /** When the label cache serves every requested post and no read of it fails, every
      good answer of the lookup is the live part of a Manhattan state: of one within
      the age limit of the lookup's own start, for a post that was fetched, and
      otherwise of one within the limit of a hot-key entry when it was found. */
  lemma {:induction false} EveryAnswerIsYoung(tl: Timeline, enabled: bool, call: Call, before: Shared, out: Outcome,
                                              after: Shared, k: nat, n: nat, id: TweetId)
    returns (i: nat)
    requires Got(enabled, call, before, out, after) && LookupInRun(tl, enabled, call, before, out, k, n)
    requires forall id :: id in call.ids ==>
               Serves(call.world, call.context, id) && !ReadOf(call.world, call.context, id).Failed?
    requires id in out.end.results && out.end.results[id].Ok?
    ensures var decoders, answer := call.world.decoders, out.end.results[id];
            if id in out.reply.results then
              YoungAnswer(decoders, StateAt(decoders, tl.start, tl.steps, n), id, answer, call.nowMs,
                          call.context.nowMs, AgeLimit(call.context.switches))
            else
              && i < |call.ids| && call.ids[i] == id
              && var s := StateOfTurn(decoders, tl, i);
                 id in s.hot && YoungAnswer(decoders, s, id, answer, call.nowMs, call.clock(i), HotLimit(s.hot[id]))
  {
    i := 0;
    EveryPostIsAnswered(enabled, call, before, out, after);
    if id in out.reply.results {
      FetchedIsYoung(tl, enabled, call, before, out, after, k, n, id);
    } else {
      var p := LocalPassOf(enabled, call, before);
      i :| i < |p.ids| && HitAt(p, i) && p.ids[i] == id && out.local[id] == Ok(Seen(p, i)[id].labels);
      HitsAreYoungEnough(call.world.decoders, tl, p, i, call.nowMs);
      LiveAnswerIsExact(out.local[id], out.end.results[id], call.nowMs);
    }
  }

  lemma {:induction false} FetchedIsYoung(tl: Timeline, enabled: bool, call: Call, before: Shared, out: Outcome,
                                          after: Shared, k: nat, n: nat, id: TweetId)
    requires Got(enabled, call, before, out, after) && LookupInRun(tl, enabled, call, before, out, k, n)
    requires Serves(call.world, call.context, id) && !ReadOf(call.world, call.context, id).Failed?
    requires id in out.reply.results && id in out.end.results && out.end.results[id].Ok?
    ensures var decoders := call.world.decoders;
            YoungAnswer(decoders, StateAt(decoders, tl.start, tl.steps, n), id, out.end.results[id], call.nowMs,
                        call.context.nowMs, AgeLimit(call.context.switches))
  {
    var decoders, fetch := call.world.decoders, call.world.fetch(out.reply.fallback);
    var v := ViewOf(call.world, call.context, out.misses, out.expired);
    ServedPartMembers(call.world, call.context, out.misses, true);
    FetchedIsServed(decoders, fetch, enabled, call, before, out, after, id);
    RunPrefix(decoders, tl.start, tl.steps, n);
    FetchedAnswersAreYoung(decoders, tl.start, tl.steps[..n], k, fetch, v, out.reply, id, call.nowMs);
  }

  /** A post whose label-cache read does not fail gets its remote answer. */
  lemma {:induction false} FetchedIsServed(decoders: Decoders, fetch: Fetch, enabled: bool, call: Call, before: Shared,
                                           out: Outcome, after: Shared, id: TweetId)
    requires Got(enabled, call, before, out, after)
    requires decoders == call.world.decoders && fetch == call.world.fetch(out.reply.fallback)
    requires id in ServedPart(call.world, call.context, out.misses, true)
    requires !ReadOf(call.world, call.context, id).Failed?
    ensures id in out.reply.results && id in out.end.results
    ensures out.end.results[id] == LiveAnswer(out.reply.results[id], call.nowMs)
  {
    NoOutage(decoders, fetch, ViewOf(call.world, call.context, out.misses, out.expired), out.reply, id);
    EveryPostIsAnswered(enabled, call, before, out, after);
    LiveAnswerIsExact(out.reply.results[id], out.end.results[id], call.nowMs);
  }

  // ---- The lookup keeps the mirror ----

  /** The turn at which an answer is taken in is a step of the run if the answer is
      cached, at the run's time, and only a read otherwise. */
  ghost predicate OwnStep(decoders: Decoders, tl: Timeline, b: BackfillPass, id: TweetId, turn: nat, k: nat)
    requires IsTimeline(decoders, tl)
  {
    if id in b.remote && Cacheable(b.remote[id], b.futureDated(id)) then
      && tl.at(turn) < |tl.steps| && tl.steps[tl.at(turn)] == Backfill(k, id, b.remote[id].value)
      && b.clock(id) == StateOfTurn(decoders, tl, turn).nowMs
      && tl.from(turn + 1) == tl.at(turn) + 1
    else tl.from(turn + 1) == tl.at(turn)
  }

  lemma {:induction false} OwnStepIsOwnTurn(decoders: Decoders, tl: Timeline, b: BackfillPass, id: TweetId, turn: nat,
                                            k: nat)
    requires IsTimeline(decoders, tl) && OwnStep(decoders, tl, b, id, turn, k)
    ensures OwnTurn(tl.hots, b, id, turn)
  {
    assert IsTurn(decoders, tl, turn) && IsTurn(decoders, tl, turn + 1);
    if id in b.remote && Cacheable(b.remote[id], b.futureDated(id)) {
      BackfillOfRun(decoders, tl.start, tl.steps, tl.at(turn), k, id, b.remote[id].value);
    }
  }

  lemma {:induction false} BackfillOfRun(decoders: Decoders, start: U64, steps: seq<Step>, n: nat, k: nat,
                                         id: TweetId, labels: LabelMap)
    requires Run(decoders, start, steps).Some? && n < |steps| && steps[n] == Backfill(k, id, labels)
    ensures var s := StateAt(decoders, start, steps, n);
            exists context :: StateAt(decoders, start, steps, n + 1).hot ==
              s.hot[id := HotEntry(labels, s.nowMs, context)]
  {
    StepOfRun(decoders, start, steps, n);
  }

  ghost predicate OwnSteps(decoders: Decoders, tl: Timeline, b: BackfillPass, order: seq<TweetId>, k: nat)
    requires IsTimeline(decoders, tl)
  {
    forall m: nat :: m < |order| ==> OwnStep(decoders, tl, b, order[m], b.first + m, k)
  }

  lemma {:induction false} OwnStepsAreOwnTurns(decoders: Decoders, tl: Timeline, b: BackfillPass, order: seq<TweetId>,
                                               k: nat)
    requires IsTimeline(decoders, tl) && OwnSteps(decoders, tl, b, order, k)
    ensures OwnTurns(tl.hots, b, order)
  {
    forall m: nat | m < |order| ensures OwnTurn(tl.hots, b, order[m], b.first + m) {
      OwnStepIsOwnTurn(decoders, tl, b, order[m], b.first + m, k);
    }
  }

  ghost function BackfillIn(call: Call, before: Shared, out: Outcome): BackfillPass {
    BackfillOf(true, call, out.reply.results, AfterLocal(true, call, before))
  }

  /** All turns of a lookup fall into the run: its pass, then what it caches itself,
      then what it reads during an outage. */
  ghost predicate TurnsInRun(decoders: Decoders, tl: Timeline, call: Call, before: Shared, out: Outcome, k: nat) {
    && PassInRun(decoders, tl, LocalPassOf(true, call, before))
    && OwnSteps(decoders, tl, BackfillIn(call, before, out), out.end.order, k)
    && ReadTurns(tl, |call.ids| + |out.end.order|, |out.end.unavailable|)
  }

  ghost function CacheLeft(call: Call, before: Shared, out: Outcome): Shared {
    Turned(call.meanwhile, |call.ids| + |out.end.order|, Backfilled(BackfillIn(call, before, out), out.end.order),
           |out.end.unavailable|)
  }

  lemma {:induction false} TurnsKeepMirrors(decoders: Decoders, tl: Timeline, call: Call, before: Shared, out: Outcome,
                                            k: nat)
    requires TurnsInRun(decoders, tl, call, before, out, k)
    ensures Mirrors(CacheLeft(call, before, out),
                    tl.hots.from(|call.ids| + |out.end.order| + |out.end.unavailable|))
  {
    TurnsFollow(decoders, tl, call, before, out, k);
    FollowedTurnsKeepMirrors(tl.hots, call, before, out);
  }

  lemma {:induction false} FollowedTurnsKeepMirrors(hots: Hots, call: Call, before: Shared, out: Outcome)
    requires Follows(hots, call.meanwhile) && Mirrors(before, hots.from(0))
    requires OnlyReads(hots, 0, |call.ids|) && OwnTurns(hots, BackfillIn(call, before, out), out.end.order)
    requires OnlyReads(hots, |call.ids| + |out.end.order|, |out.end.unavailable|)
    ensures Mirrors(CacheLeft(call, before, out), hots.from(|call.ids| + |out.end.order| + |out.end.unavailable|))
  {
    MirrorsThrough(hots, call.meanwhile, before, BackfillIn(call, before, out), out.end.order,
                   |out.end.unavailable|);
  }

  /** The turns of the lookup, in terms of the run's hot-key entries. */
  lemma {:induction false} TurnsFollow(decoders: Decoders, tl: Timeline, call: Call, before: Shared, out: Outcome,
                                       k: nat)
    requires TurnsInRun(decoders, tl, call, before, out, k)
    ensures Follows(tl.hots, call.meanwhile) && Mirrors(before, tl.hots.from(0))
    ensures OnlyReads(tl.hots, 0, |call.ids|) && OwnTurns(tl.hots, BackfillIn(call, before, out), out.end.order)
    ensures OnlyReads(tl.hots, |call.ids| + |out.end.order|, |out.end.unavailable|)
  {
    OwnStepsAreOwnTurns(decoders, tl, BackfillIn(call, before, out), out.end.order, k);
    PassMirrors(decoders, tl, LocalPassOf(true, call, before));
    ReadTurnsOnlyRead(decoders, tl, |call.ids| + |out.end.order|, |out.end.unavailable|);
  }

  ghost function Image(hot: HotEntries): Shared {
    map id | id in hot :: EntryOf(hot[id])
  }

  lemma {:induction false} StepKeepsImage(decoders: Decoders, s: State, step: Step)
    requires Enabled(decoders, s, step)
    ensures CacheAfter(Image(s.hot), s, step) == Image(Apply(decoders, s, step).hot)
  {
    if !step.HotRemove? && !step.Backfill? {
      assert Apply(decoders, s, step).hot == s.hot;
    }
  }

  lemma {:induction false} StepsKeepImage(decoders: Decoders, s: State, steps: seq<Step>)
    requires RunFrom(decoders, s, steps).Some?
    ensures CacheAlong(decoders, Image(s.hot), s, steps) == Image(RunFrom(decoders, s, steps).value.hot)
    decreases |steps|
  {
    if steps != [] {
      StepKeepsImage(decoders, s, steps[0]);
      StepsKeepImage(decoders, Apply(decoders, s, steps[0]), steps[1..]);
    }
  }

  lemma {:induction false} RunCacheIsImage(decoders: Decoders, start: U64, steps: seq<Step>, n: nat)
    requires Run(decoders, start, steps).Some? && n <= |steps|
    ensures RunCache(decoders, start, steps, n) == Image(StateAt(decoders, start, steps, n).hot)
  {
    StretchOfRun(decoders, start, steps, 0, n);
    assert steps[0..n] == steps[..n] && steps[..0] == [];
    assert Image(Init(start).hot) == map[];
    StepsKeepImage(decoders, Init(start), steps[..n]);
  }

  lemma {:induction false} MirrorIsPartOfImage(cache: Shared, hot: HotEntries)
    requires Mirrors(cache, hot)
    ensures cache == Image(hot) - (hot.Keys - cache.Keys)
  {
  }

  /** A lookup whose turns fall into a run leaves what the run's steps so far, its own
      among them, and evictions make of an empty cache: so the next lookup finds
      what this one was supposed to find. */
  lemma {:induction false} LookupLeavesRunCache(decoders: Decoders, tl: Timeline, call: Call, before: Shared,
                                                out: Outcome, after: Shared, k: nat)
    returns (gone: set<TweetId>)
    requires Got(true, call, before, out, after) && TurnsInRun(decoders, tl, call, before, out, k)
    ensures var n := tl.from(|call.ids| + |out.end.order| + |out.end.unavailable|);
            n <= |tl.steps| && after == RunCache(decoders, tl.start, tl.steps, n) - gone
  {
    gone := TurnsLeaveRunCache(decoders, tl, call, before, out, k);
    GotCache(call, before, out, after);
  }

  lemma {:induction false} TurnsLeaveRunCache(decoders: Decoders, tl: Timeline, call: Call, before: Shared,
                                              out: Outcome, k: nat)
    returns (gone: set<TweetId>)
    requires TurnsInRun(decoders, tl, call, before, out, k)
    ensures var n := tl.from(|call.ids| + |out.end.order| + |out.end.unavailable|);
            n <= |tl.steps| && CacheLeft(call, before, out) == RunCache(decoders, tl.start, tl.steps, n) - gone
  {
    TurnsKeepMirrors(decoders, tl, call, before, out, k);
    gone := MirrorIsRunCache(decoders, tl, |call.ids| + |out.end.order| + |out.end.unavailable|,
                             CacheLeft(call, before, out));
  }

  lemma {:induction false} MirrorIsRunCache(decoders: Decoders, tl: Timeline, turn: nat, cache: Shared)
    returns (gone: set<TweetId>)
    requires IsTimeline(decoders, tl) && Mirrors(cache, tl.hots.from(turn))
    ensures tl.from(turn) <= |tl.steps| && cache == RunCache(decoders, tl.start, tl.steps, tl.from(turn)) - gone
  {
    assert IsTurn(decoders, tl, turn);
    gone := tl.hots.from(turn).Keys - cache.Keys;
    MirrorIsPartOfImage(cache, tl.hots.from(turn));
    RunCacheIsImage(decoders, tl.start, tl.steps, tl.from(turn));
  }

  lemma {:induction false} GotCache(call: Call, before: Shared, out: Outcome, after: Shared)
    requires Got(true, call, before, out, after)
    ensures after == CacheLeft(call, before, out)
  {
    CompletedCache(call, before, out.local, out.reply.results, out.end, after);
  }

  /** The cache that a lookup leaves. */
  lemma {:induction false} CompletedCache(call: Call, before: Shared, local: map<TweetId, Lookup>,
                                          remote: map<TweetId, Lookup>, c: Completion, after: Shared)
    requires Completed(true, call, local, remote, AfterLocal(true, call, before), c, after)
    ensures after == Turned(call.meanwhile, |call.ids| + |c.order|,
                            Backfilled(BackfillOf(true, call, remote, AfterLocal(true, call, before)), c.order),
                            |c.unavailable|)
  {
  }

  lemma {:induction false} MirrorsThrough(hots: Hots, meanwhile: Meanwhile, before: Shared, b: BackfillPass,
                                          order: seq<TweetId>, unavailable: nat)
    requires Follows(hots, meanwhile) && Mirrors(before, hots.from(0)) && OnlyReads(hots, 0, b.first)
    requires b.enabled && b.meanwhile == meanwhile && b.cache == Turned(meanwhile, 0, before, b.first)
    requires OwnTurns(hots, b, order) && OnlyReads(hots, b.first + |order|, unavailable)
    ensures Mirrors(Turned(meanwhile, b.first + |order|, Backfilled(b, order), unavailable),
                    hots.from(b.first + |order| + unavailable))
  {
    ReadingKeepsMirrors(hots, meanwhile, 0, before, b.first);
    BackfillKeepsMirrors(hots, b, order);
    ReadingKeepsMirrors(hots, meanwhile, b.first + |order|, Backfilled(b, order), unavailable);
  }
}
