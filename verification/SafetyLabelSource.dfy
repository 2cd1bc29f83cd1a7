/** The whole lookup: a hot-key cache with a ten-second TTL in front of
    `RemoteSource`, which also answers, past its TTL, while the label cache is
    out. Other tasks share the hot-key cache: before each turn of the lookup they
    may have added or replaced any entry, and any entry may have been evicted. */
module SafetyLabelSource {
  import opened Basics
  import opened Labels
  import opened LabelEntry
  import opened LabelCacheProtocol
  import opened RemoteSource

  datatype Entry = Entry(labels: LabelMap, expiresAt: int)

  type Shared = map<TweetId, Entry>

  /** What other tasks make of the cache before a turn of the lookup. */
  type Meanwhile = (nat, Shared) -> Shared

  /** An answer without the labels that have expired. */
  function LiveAnswer(answer: Lookup, nowMs: I64): Lookup {
    match answer
    case Ok(labels) => Ok(DropExpiredLabels(labels, nowMs))
    case Err(failure) => Err(failure)
  }

  /** `answer` is the failure `taken`, or has the labels of `taken` that are live at
      `nowMs`: each of them, unchanged, and no other. */
  ghost predicate KeepsLive(taken: Lookup, answer: Lookup, nowMs: I64) {
    match taken
    case Err(failure) => answer == Err(failure)
    case Ok(labels) =>
      && answer.Ok?
      && (forall t :: t in answer.value <==> t in labels && LabelIsLive(labels[t].expiresAtMsec, nowMs))
      && (forall t :: t in answer.value ==> answer.value[t] == labels[t])
  }

  lemma LiveAnswerIsExact(taken: Lookup, answer: Lookup, nowMs: I64)
    ensures KeepsLive(taken, answer, nowMs) <==> answer == LiveAnswer(taken, nowMs)
  {
    if taken.Ok? {
      var live := DropExpiredLabels(taken.value, nowMs);
      assert forall t :: t in live <==> t in taken.value && LabelIsLive(taken.value[t].expiresAtMsec, nowMs);
      if KeepsLive(taken, answer, nowMs) {
        forall t ensures t in answer.value.Keys <==> t in live.Keys {
        }
        assert forall t :: t in live ==> live[t] == taken.value[t] && answer.value[t] == taken.value[t];
        assert answer.value == live;
      }
    }
  }

  /** A remote answer the hot-key cache keeps. */
  predicate Cacheable(answer: Lookup, futureDated: bool) {
    answer.Ok? && !futureDated
  }

  // ---- What the pass over the hot-key cache finds ----

  /** The pass over the requested posts; `clock(i)` is the time at position `i`. */
  datatype LocalPass = LocalPass(enabled: bool, ids: seq<TweetId>, clock: nat -> int, meanwhile: Meanwhile,
                                 cache: Shared)

  /** The cache as the post at position `i` is looked up. */
  ghost function Seen(p: LocalPass, i: nat): Shared {
    Turned(p.meanwhile, 0, p.cache, i + 1)
  }

  ghost predicate HitAt(p: LocalPass, i: nat) {
    i < |p.ids| && p.enabled && p.ids[i] in Seen(p, i) && p.clock(i) < Seen(p, i)[p.ids[i]].expiresAt
  }

  ghost predicate ExpiredAt(p: LocalPass, i: nat) {
    i < |p.ids| && p.enabled && p.ids[i] in Seen(p, i) && Seen(p, i)[p.ids[i]].expiresAt <= p.clock(i)
  }

  /** After `n` positions, each answer is that of a live entry found at a position
      of its post; the misses and the expired entries are the positions' own. */
  ghost predicate LocalUpTo(p: LocalPass, local: map<TweetId, Lookup>, misses: seq<TweetId>, expired: set<TweetId>,
                            n: nat)
  {
    && (forall id :: id in local ==>
          exists i: nat :: i < n && HitAt(p, i) && p.ids[i] == id && local[id] == Ok(Seen(p, i)[id].labels))
    && (forall i: nat :: i < n && HitAt(p, i) ==> p.ids[i] in local)
    && (forall id :: id in misses <==> exists i: nat :: i < n && i < |p.ids| && p.ids[i] == id && !HitAt(p, i))
    && (forall id :: id in expired <==> exists i: nat :: i < n && ExpiredAt(p, i) && p.ids[i] == id)
  }

  // ---- What the remote answers make of the hot-key cache ----

  datatype BackfillPass = BackfillPass(enabled: bool, remote: map<TweetId, Lookup>, futureDated: TweetId -> bool,
                               clock: TweetId -> int, meanwhile: Meanwhile, first: nat, cache: Shared)

  /** What a turn makes of the cache: what others have made of it, and the answer if it is
      a good one of a post not dated in the future. */
  ghost function AfterTurn(b: BackfillPass, id: TweetId, turn: nat, cache: Shared): Shared {
    if !b.enabled then cache else
    var seen := b.meanwhile(turn, cache);
    if id in b.remote && Cacheable(b.remote[id], b.futureDated(id))
    then seen[id := Entry(b.remote[id].value, b.clock(id) + HOT_TTL_MS)] else seen
  }

  /** The cache once the answers have been taken in some order, from turn `first` on. */
  ghost function Backfilled(b: BackfillPass, order: seq<TweetId>): Shared {
    if order == [] then b.cache else
    var n := |order| - 1;
    AfterTurn(b, order[n], b.first + n, Backfilled(b, order[..n]))
  }

  /** The posts that failed because the label cache did, in order. */
  ghost function UnavailableOf(remote: map<TweetId, Lookup>, order: seq<TweetId>): seq<TweetId> {
    if order == [] then [] else
    var id := order[|order| - 1];
    UnavailableOf(remote, order[..|order| - 1]) +
    if id in remote && remote[id] == Err(LabelCacheUnavailable) then [id] else []
  }

  /** The local answers with some remote ones taken in over them. */
  ghost function TakenIn(local: map<TweetId, Lookup>, remote: map<TweetId, Lookup>, order: seq<TweetId>):
    map<TweetId, Lookup>
  {
    if order == [] then local else
    var id, before := order[|order| - 1], TakenIn(local, remote, order[..|order| - 1]);
    if id in remote then before[id := remote[id]] else before
  }

  /** The keys of a map in the order in which it happens to yield them. */
  method KeyOrder(answers: map<TweetId, Lookup>) returns (order: seq<TweetId>)
    ensures Distinct(order) && forall id :: id in order <==> id in answers
  {
    order := [];
    var todo := answers.Keys;
    while todo != {}
      invariant Distinct(order)
      invariant forall id :: id in answers <==> id in order || id in todo
      invariant forall id :: id in order ==> id !in todo
      decreases todo
    {
      var id :| id in todo;
      todo, order := todo - {id}, order + [id];
    }
  }

  // ---- What an outage is answered with ----

  /** The pass over the posts that the label cache failed on, from turn `first` on. */
  datatype OutagePass = OutagePass(enabled: bool, unavailable: seq<TweetId>, before: map<TweetId, Lookup>,
                                   meanwhile: Meanwhile, first: nat, cache: Shared)

  /** The cache as the post at position `j` is looked up. */
  ghost function StillSeen(o: OutagePass, j: nat): Shared {
    Turned(o.meanwhile, o.first, o.cache, j + 1)
  }

  /** The answer for the post at position `j`: that of the entry it still has, however
      old, or its failure. */
  ghost function OutageAnswer(o: OutagePass, j: nat): Lookup
    requires j < |o.unavailable| && o.unavailable[j] in o.before
  {
    var id := o.unavailable[j];
    if o.enabled && id in StillSeen(o, j) then Ok(StillSeen(o, j)[id].labels) else o.before[id]
  }

  /** The results once the first `n` of them have been looked up. */
  ghost function OutageResults(o: OutagePass, n: nat): map<TweetId, Lookup>
    requires n <= |o.unavailable|
  {
    if n == 0 then o.before else
    var id, seen := o.unavailable[n - 1], StillSeen(o, n - 1);
    if o.enabled && id in seen then OutageResults(o, n - 1)[id := Ok(seen[id].labels)] else OutageResults(o, n - 1)
  }

  class HotKeyCache {
    const enabled: bool
    var cache: Shared

    constructor (enabled: bool)
      ensures this.enabled == enabled && cache == map[]
    {
      this.enabled := enabled;
      cache := map[];
    }

    /** Answers the posts whose entry is live when it is their turn; the others are
        misses, and those with an expired entry are remembered. */
    method GetLocal(ids: seq<TweetId>, clock: nat -> int, meanwhile: Meanwhile)
      returns (local: map<TweetId, Lookup>, misses: seq<TweetId>, expired: set<TweetId>)
      modifies this`cache
      ensures LocalUpTo(LocalPass(enabled, ids, clock, meanwhile, old(cache)), local, misses, expired, |ids|)
      ensures cache == if enabled then Turned(meanwhile, 0, old(cache), |ids|) else old(cache)
    {
      ghost var p := LocalPass(enabled, ids, clock, meanwhile, cache);
      local, misses, expired := map[], [], {};
      if !enabled {
        misses := ids;
        return;
      }
      for i := 0 to |ids|
        invariant cache == Turned(meanwhile, 0, old(cache), i)
        invariant LocalUpTo(p, local, misses, expired, i)
      {
        ghost var local0, misses0, expired0 := local, misses, expired;
        cache := meanwhile(i, cache);
        var id, now := ids[i], clock(i);
        if id in cache && now < cache[id].expiresAt {
          local := local[id := Ok(cache[id].labels)];
        } else {
          if id in cache {
            expired := expired + {id};
          }
          misses := misses + [id];
        }
        LocalTurn(p, local0, misses0, expired0, i, local, misses, expired);
      }
    }

    /** One turn: caches a good answer of a post not dated in the future. */
    method CacheAnswer(id: TweetId, answer: Lookup, futureDated: bool, now: int, meanwhile: Meanwhile, turn: nat,
                       ghost b: BackfillPass)
      requires b.enabled == enabled && b.meanwhile == meanwhile && id in b.remote && b.remote[id] == answer
      requires b.futureDated(id) == futureDated && b.clock(id) == now
      modifies this`cache
      ensures cache == AfterTurn(b, id, turn, old(cache))
    {
      if enabled {
        cache := meanwhile(turn, cache);
        if answer.Ok? && !futureDated {
          cache := cache[id := Entry(answer.value, now + HOT_TTL_MS)];
        }
      }
    }

    /** Takes one remote answer into the results, the failures and the cache. */
    method TakeAnswer(order: seq<TweetId>, n: nat, before: map<TweetId, Lookup>, failed: seq<TweetId>,
                      b: BackfillPass, ghost local: map<TweetId, Lookup>)
      returns (results: map<TweetId, Lookup>, unavailable: seq<TweetId>)
      requires b.enabled == enabled && n < |order| && order[n] in b.remote
      requires TakenSoFar(b, local, order, n, before, failed, cache)
      modifies this`cache
      ensures TakenSoFar(b, local, order, n + 1, results, unavailable, cache)
    {
      var id := order[n];
      TakeNext(b, local, order, n, before, failed, cache);
      unavailable := if b.remote[id] == Err(LabelCacheUnavailable) then failed + [id] else failed;
      CacheAnswer(id, b.remote[id], b.futureDated(id), b.clock(id), b.meanwhile, b.first + n, b);
      results := before[id := b.remote[id]];
    }

    /** Takes the remote answers in the given order. */
    method TakeAnswers(order: seq<TweetId>, remote: map<TweetId, Lookup>, local: map<TweetId, Lookup>,
                       futureDated: TweetId -> bool, clock: TweetId -> int, meanwhile: Meanwhile, first: nat)
      returns (results: map<TweetId, Lookup>, unavailable: seq<TweetId>)
      requires forall n :: 0 <= n < |order| ==> order[n] in remote
      modifies this`cache
      ensures results == TakenIn(local, remote, order) && unavailable == UnavailableOf(remote, order)
      ensures cache ==
              Backfilled(BackfillPass(enabled, remote, futureDated, clock, meanwhile, first, old(cache)), order)
    {
      var b := BackfillPass(enabled, remote, futureDated, clock, meanwhile, first, cache);
      results, unavailable := local, [];
      for n := 0 to |order|
        invariant TakenSoFar(b, local, order, n, results, unavailable, cache)
      {
        results, unavailable := TakeAnswer(order, n, results, unavailable, b, local);
      }
      assert order[..|order|] == order;
    }

    /** Takes the remote answers, in any order, into the results, and the good
        ones of posts not dated in the future into the cache. A failure is
        never cached. Gives the posts that failed because the label cache did. */
    method BackfillLocal(remote: map<TweetId, Lookup>, local: map<TweetId, Lookup>, futureDated: TweetId -> bool,
                         clock: TweetId -> int, meanwhile: Meanwhile, first: nat)
      returns (results: map<TweetId, Lookup>, unavailable: seq<TweetId>, order: seq<TweetId>)
      modifies this`cache
      ensures results == local + remote
      ensures Distinct(order) && forall id :: id in order <==> id in remote
      ensures unavailable == UnavailableOf(remote, order)
      ensures cache ==
              Backfilled(BackfillPass(enabled, remote, futureDated, clock, meanwhile, first, old(cache)), order)
    {
      order := KeyOrder(remote);
      results, unavailable := TakeAnswers(order, remote, local, futureDated, clock, meanwhile, first);
      TakenInAll(local, remote, order);
    }

    /** Answers the posts the label cache failed on from their entries, however
        old, where they have one when it is their turn. */
    method ServeOutage(unavailable: seq<TweetId>, before: map<TweetId, Lookup>, meanwhile: Meanwhile, first: nat)
      returns (results: map<TweetId, Lookup>)
      modifies this`cache
      ensures cache == if enabled then Turned(meanwhile, first, old(cache), |unavailable|) else old(cache)
      ensures results ==
              OutageResults(OutagePass(enabled, unavailable, before, meanwhile, first, old(cache)), |unavailable|)
    {
      ghost var o := OutagePass(enabled, unavailable, before, meanwhile, first, cache);
      results := before;
      for j := 0 to |unavailable|
        invariant cache == if enabled then Turned(meanwhile, first, old(cache), j) else old(cache)
        invariant results == OutageResults(o, j)
      {
        if enabled {
          cache := meanwhile(first + j, cache);
          assert cache == StillSeen(o, j);
          if unavailable[j] in cache {
            results := results[unavailable[j] := Ok(cache[unavailable[j]].labels)];
          }
        }
      }
    }

    /** Drops labels that have expired by `nowMs` from every answer; an answer
        with none is left as it is. */
    method DropExpired(before: map<TweetId, Lookup>, nowMs: I64) returns (results: map<TweetId, Lookup>)
      ensures results == map id | id in before :: LiveAnswer(before[id], nowMs)
      ensures forall id :: id in before ==> KeepsLive(before[id], results[id], nowMs)
    {
      results := before;
      var todo := before.Keys;
      while todo != {}
        invariant todo <= before.Keys && results.Keys == before.Keys
        invariant forall id :: id in before ==>
                    results[id] == if id in todo then before[id] else LiveAnswer(before[id], nowMs)
        decreases todo
      {
        var id :| id in todo;
        todo := todo - {id};
        if results[id].Ok? {
          var labels := results[id].value;
          if exists t :: t in labels && !LabelIsLive(labels[t].expiresAtMsec, nowMs) {
            results := results[id := Ok(DropExpiredLabels(labels, nowMs))];
          } else {
            assert DropExpiredLabels(labels, nowMs) == labels;
          }
        }
      }
      forall id | id in before ensures KeepsLive(before[id], results[id], nowMs) {
        LiveAnswerIsExact(before[id], results[id], nowMs);
      }
    }

    /** Takes the remote answers in, serves the outage, and drops expired labels. */
    method Complete(call: Call, local: map<TweetId, Lookup>, reply: Reply) returns (c: Completion)
      modifies this`cache
      ensures Completed(enabled, call, local, reply.results, old(cache), c, cache)
    {
      var turn := |call.ids|;
      var filled, unavailable, order :=
        BackfillLocal(reply.results, local, call.futureDated, call.backfillClock, call.meanwhile, turn);
      var answered := ServeOutage(unavailable, filled, call.meanwhile, turn + |order|);
      var results := DropExpired(answered, call.nowMs);
      c := Completion(results, order, unavailable);
    }

    /** The lookup; see `Got`. */
    method Get(call: Call) returns (out: Outcome)
      modifies this`cache
      ensures Got(enabled, call, old(cache), out, cache)
    {
      var local, misses, expired := GetLocal(call.ids, call.clock, call.meanwhile);
      var reply := RemoteSource.Get(call.world, call.context, misses, expired);
      var c := Complete(call, local, reply);
      out := Outcome(local, misses, expired, reply, c);
    }
  }

  // ---- What a lookup is, and what it gives ----

  /** A lookup and everything around it: `clock(i)` is the time when position `i` is
      looked up, `backfillClock(id)` when the answer for a post is cached, `nowMs`
      when the answers are returned. */
  datatype Call = Call(
    world: World,
    context: ReadContext,
    ids: seq<TweetId>,
    clock: nat -> int,
    backfillClock: TweetId -> int,
    futureDated: TweetId -> bool,
    nowMs: I64,
    meanwhile: Meanwhile)

  datatype Completion = Completion(results: map<TweetId, Lookup>, order: seq<TweetId>, unavailable: seq<TweetId>)

  datatype Outcome = Outcome(
    local: map<TweetId, Lookup>,
    misses: seq<TweetId>,
    expired: set<TweetId>,
    reply: Reply,
    end: Completion)

  ghost function LocalPassOf(enabled: bool, call: Call, before: Shared): LocalPass {
    LocalPass(enabled, call.ids, call.clock, call.meanwhile, before)
  }

  /** The cache after the pass over it. */
  ghost function AfterLocal(enabled: bool, call: Call, before: Shared): Shared {
    if enabled then Turned(call.meanwhile, 0, before, |call.ids|) else before
  }

  ghost function BackfillOf(enabled: bool, call: Call, remote: map<TweetId, Lookup>, cache: Shared): BackfillPass {
    BackfillPass(enabled, remote, call.futureDated, call.backfillClock, call.meanwhile, |call.ids|, cache)
  }

  ghost function OutageOf(enabled: bool, call: Call, local: map<TweetId, Lookup>, remote: map<TweetId, Lookup>,
                          cache: Shared, c: Completion): OutagePass
  {
    OutagePass(enabled, c.unavailable, local + remote, call.meanwhile, |call.ids| + |c.order|,
               Backfilled(BackfillOf(enabled, call, remote, cache), c.order))
  }

  /** What is done with the remote answers, from the cache after the local pass on:
      they are taken in, those the label cache failed on are served from entries
      still there, and expired labels are dropped. */
  ghost predicate Completed(enabled: bool, call: Call, local: map<TweetId, Lookup>, remote: map<TweetId, Lookup>,
                            cache: Shared, c: Completion, after: Shared)
  {
    var o := OutageOf(enabled, call, local, remote, cache, c);
    var answered := OutageResults(o, |o.unavailable|);
    && Distinct(c.order) && (forall id :: id in c.order <==> id in remote)
    && c.unavailable == UnavailableOf(remote, c.order)
    && c.results == (map id | id in answered :: LiveAnswer(answered[id], call.nowMs))
    && after == if enabled then Turned(call.meanwhile, o.first, o.cache, |o.unavailable|) else o.cache
  }

  /** What a lookup does, given the cache before it: the pass over it, the remote
      lookup of the misses, the answers for exactly the requested posts, and the
      cache after it. */
  ghost predicate Got(enabled: bool, call: Call, before: Shared, out: Outcome, after: Shared) {
    && LocalUpTo(LocalPassOf(enabled, call, before), out.local, out.misses, out.expired, |call.ids|)
    && LookedUp(ViewOf(call.world, call.context, out.misses, out.expired), ScansOf(call.world, out.reply.fallback),
                out.reply)
    && (forall id :: id in out.reply.results <==> id in out.misses)
    && Completed(enabled, call, out.local, out.reply.results, AfterLocal(enabled, call, before), out.end, after)
  }

  // ---- Lemmas ----

  lemma {:induction false} LocalTurn(p: LocalPass, local: map<TweetId, Lookup>, misses: seq<TweetId>,
                                     expired: set<TweetId>, n: nat,
                  local': map<TweetId, Lookup>, misses': seq<TweetId>, expired': set<TweetId>)
    requires p.enabled && n < |p.ids| && LocalUpTo(p, local, misses, expired, n)
    requires var id, seen := p.ids[n], Seen(p, n);
             && local' == (if HitAt(p, n) then local[id := Ok(seen[id].labels)] else local)
             && misses' == (if HitAt(p, n) then misses else misses + [id])
             && expired' == (if ExpiredAt(p, n) then expired + {id} else expired)
    ensures LocalUpTo(p, local', misses', expired', n + 1)
  {
    forall id | id in local'
      ensures exists i: nat :: i < n + 1 && HitAt(p, i) && p.ids[i] == id && local'[id] == Ok(Seen(p, i)[id].labels)
    {
      if HitAt(p, n) && id == p.ids[n] {
        assert local'[id] == Ok(Seen(p, n)[id].labels);
      } else {
        var i: nat :| i < n && HitAt(p, i) && p.ids[i] == id && local[id] == Ok(Seen(p, i)[id].labels);
      }
    }
  }

  lemma {:induction false} TakenInNext(local: map<TweetId, Lookup>, remote: map<TweetId, Lookup>, order: seq<TweetId>,
                                       id: TweetId)
    requires id in remote
    ensures TakenIn(local, remote, order + [id]) == TakenIn(local, remote, order)[id := remote[id]]
  {
    var all := order + [id];
    assert all[..|all| - 1] == order && all[|all| - 1] == id;
  }

  lemma {:induction false} TakenInPart(local: map<TweetId, Lookup>, remote: map<TweetId, Lookup>, order: seq<TweetId>)
    requires forall id :: id in order ==> id in remote
    ensures TakenIn(local, remote, order) == local + map id | id in order :: remote[id]
  {
    if order != [] {
      var init := order[..|order| - 1];
      TakenInPart(local, remote, init);
      assert order == init + [order[|order| - 1]];
    }
  }

  lemma TakenInAll(local: map<TweetId, Lookup>, remote: map<TweetId, Lookup>, order: seq<TweetId>)
    requires forall id :: id in order <==> id in remote
    ensures TakenIn(local, remote, order) == local + remote
  {
    TakenInPart(local, remote, order);
    assert remote == map id | id in order :: remote[id];
  }

  lemma {:induction false} BackfilledNext(b: BackfillPass, order: seq<TweetId>, id: TweetId)
    ensures Backfilled(b, order + [id]) == AfterTurn(b, id, b.first + |order|, Backfilled(b, order))
  {
    var all := order + [id];
    assert all[..|all| - 1] == order && all[|all| - 1] == id;
  }

  /** The first `n` answers have been taken in. */
  ghost predicate TakenSoFar(b: BackfillPass, local: map<TweetId, Lookup>, order: seq<TweetId>, n: nat,
                             results: map<TweetId, Lookup>, unavailable: seq<TweetId>, cache: Shared)
  {
    && n <= |order|
    && results == TakenIn(local, b.remote, order[..n])
    && unavailable == UnavailableOf(b.remote, order[..n])
    && cache == Backfilled(b, order[..n])
  }

  /** One answer more of those taken in. */
  lemma {:induction false} TakeNext(b: BackfillPass, local: map<TweetId, Lookup>, order: seq<TweetId>, n: nat,
                                    results: map<TweetId, Lookup>, unavailable: seq<TweetId>, cache: Shared)
    requires TakenSoFar(b, local, order, n, results, unavailable, cache) && n < |order| && order[n] in b.remote
    ensures var id := order[n];
            TakenSoFar(b, local, order, n + 1, results[id := b.remote[id]],
                       if b.remote[id] == Err(LabelCacheUnavailable) then unavailable + [id] else unavailable,
                       AfterTurn(b, id, b.first + n, cache))
  {
    assert order[..n + 1] == order[..n] + [order[n]];
    BackfilledNext(b, order[..n], order[n]);
    UnavailableNext(b.remote, order[..n], order[n]);
    TakenInNext(local, b.remote, order[..n], order[n]);
  }

  lemma {:induction false} UnavailableNext(remote: map<TweetId, Lookup>, order: seq<TweetId>, id: TweetId)
    requires id in remote
    ensures UnavailableOf(remote, order + [id]) ==
            UnavailableOf(remote, order) + if remote[id] == Err(LabelCacheUnavailable) then [id] else []
  {
    assert (order + [id])[..|order|] == order;
  }

  lemma {:induction false} AllAnswered(p: LocalPass, local: map<TweetId, Lookup>, misses: seq<TweetId>,
                                       expired: set<TweetId>)
    requires LocalUpTo(p, local, misses, expired, |p.ids|)
    ensures forall id :: id in p.ids <==> id in local || id in misses
  {
    forall id | id in p.ids ensures id in local || id in misses {
      var i: nat :| i < |p.ids| && p.ids[i] == id;
      if HitAt(p, i) {
      }
    }
  }

  lemma {:induction false} UnavailableMembers(remote: map<TweetId, Lookup>, order: seq<TweetId>)
    requires Distinct(order)
    ensures forall id :: id in UnavailableOf(remote, order) <==>
              id in order && id in remote && remote[id] == Err(LabelCacheUnavailable)
    ensures Distinct(UnavailableOf(remote, order))
  {
    if order != [] {
      var n := |order| - 1;
      UnavailableMembers(remote, order[..n]);
      assert order == order[..n] + [order[n]];
      assert order[n] !in order[..n];
    }
  }

  lemma {:induction false} OutageKeepsOthers(o: OutagePass, n: nat, id: TweetId)
    requires n <= |o.unavailable| && id in o.before && id !in o.unavailable[..n]
    ensures id in OutageResults(o, n) && OutageResults(o, n)[id] == o.before[id]
  {
    if n > 0 {
      assert o.unavailable[..n] == o.unavailable[..n - 1] + [o.unavailable[n - 1]];
      OutageKeepsOthers(o, n - 1, id);
    }
  }

  lemma {:induction false} OutageIsAnswered(o: OutagePass, n: nat, j: nat)
    requires j < n <= |o.unavailable| && Distinct(o.unavailable) && o.unavailable[j] in o.before
    ensures o.unavailable[j] in OutageResults(o, n) && OutageResults(o, n)[o.unavailable[j]] == OutageAnswer(o, j)
  {
    if j == n - 1 {
      OutageKeepsOthers(o, n - 1, o.unavailable[j]);
    } else {
      OutageIsAnswered(o, n - 1, j);
    }
  }

  lemma {:induction false} OutageKeys(o: OutagePass, n: nat)
    requires n <= |o.unavailable| && forall id :: id in o.unavailable ==> id in o.before
    ensures OutageResults(o, n).Keys == o.before.Keys
  {
    if n > 0 {
      OutageKeys(o, n - 1);
      assert o.unavailable[n - 1] in o.unavailable;
    }
  }

  // ---- What a lookup promises ----

  /** Each post is answered by the pass over the cache, or as the remote lookup
      answered, or, where the label cache failed, from the entry the post still
      has; always without expired labels. */
  ghost predicate Answered(call: Call, local: map<TweetId, Lookup>, remote: map<TweetId, Lookup>,
                           results: map<TweetId, Lookup>, o: OutagePass)
  {
    && (forall id :: id in results <==> id in local || id in remote)
    && (forall id :: id in local && id !in remote ==> KeepsLive(local[id], results[id], call.nowMs))
    && (forall id :: id in remote && remote[id] != Err(LabelCacheUnavailable) ==>
          KeepsLive(remote[id], results[id], call.nowMs))
    && (forall id :: id in o.unavailable <==> id in remote && remote[id] == Err(LabelCacheUnavailable))
    && (forall j: nat :: j < |o.unavailable| ==>
          o.unavailable[j] in o.before && o.unavailable[j] in results &&
          KeepsLive(OutageAnswer(o, j), results[o.unavailable[j]], call.nowMs))
  }

  lemma {:induction false} CompletedAnswers(enabled: bool, call: Call, local: map<TweetId, Lookup>,
                                            remote: map<TweetId, Lookup>, cache: Shared, c: Completion, after: Shared)
    requires Completed(enabled, call, local, remote, cache, c, after)
    ensures Answered(call, local, remote, c.results, OutageOf(enabled, call, local, remote, cache, c))
  {
    var o := OutageOf(enabled, call, local, remote, cache, c);
    var n := |o.unavailable|;
    UnavailableMembers(remote, c.order);
    OutageKeys(o, n);
    assert o.unavailable[..n] == o.unavailable;
    forall id | id in o.before && id !in o.unavailable ensures OutageResults(o, n)[id] == o.before[id] {
      OutageKeepsOthers(o, n, id);
    }
    forall j: nat | j < n
      ensures o.unavailable[j] in o.before && OutageResults(o, n)[o.unavailable[j]] == OutageAnswer(o, j)
    {
      assert o.unavailable[j] in o.unavailable;
      OutageIsAnswered(o, n, j);
    }
    forall id | id in c.results ensures KeepsLive(OutageResults(o, n)[id], c.results[id], call.nowMs) {
      LiveAnswerIsExact(OutageResults(o, n)[id], c.results[id], call.nowMs);
    }
  }

  /** Exactly the requested posts are answered, each as `Answered` says; those asked
      of the remote lookup are the misses. */
  lemma {:induction false} EveryPostIsAnswered(enabled: bool, call: Call, before: Shared, out: Outcome, after: Shared)
    requires Got(enabled, call, before, out, after)
    ensures forall id :: id in out.end.results <==> id in call.ids
    ensures forall id :: id in out.reply.results <==> id in out.misses
    ensures Answered(call, out.local, out.reply.results, out.end.results,
                     OutageOf(enabled, call, out.local, out.reply.results, AfterLocal(enabled, call, before), out.end))
  {
    AllAnswered(LocalPassOf(enabled, call, before), out.local, out.misses, out.expired);
    CompletedAnswers(enabled, call, out.local, out.reply.results, AfterLocal(enabled, call, before), out.end, after);
  }

  /** No answer has a label that has expired. */
  lemma {:induction false} AnswersAreLive(enabled: bool, call: Call, before: Shared, out: Outcome, after: Shared,
                                          id: TweetId, t: int)
    requires Got(enabled, call, before, out, after)
    requires id in out.end.results && out.end.results[id].Ok? && t in out.end.results[id].value
    ensures LabelIsLive(out.end.results[id].value[t].expiresAtMsec, call.nowMs)
  {
  }

  /** A post whose entry had expired at one of its positions, and whose label-cache
      read fails, is not sent to Manhattan and queues no fill; it is answered from
      the entry it has when its turn comes again, or fails if that is gone. */
  lemma {:induction false} ExpiredEntryServesOutage(enabled: bool, call: Call, before: Shared, out: Outcome,
                                                    after: Shared, id: TweetId, i: nat) returns (j: nat)
    requires Got(enabled, call, before, out, after)
    requires ExpiredAt(LocalPassOf(enabled, call, before), i) && call.ids[i] == id
    requires Serves(call.world, call.context, id) && ReadOf(call.world, call.context, id).Failed?
    ensures id !in out.reply.fallback && forall job :: job in out.reply.fills ==> job.tweetId != id
    ensures var o := OutageOf(enabled, call, out.local, out.reply.results, AfterLocal(enabled, call, before), out.end);
            && j < |o.unavailable| && o.unavailable[j] == id && id in out.end.results
            && KeepsLive(if id in StillSeen(o, j) then Ok(StillSeen(o, j)[id].labels) else Err(LabelCacheUnavailable),
                         out.end.results[id], call.nowMs)
  {
    ExpiredIsMissed(LocalPassOf(enabled, call, before), out.local, out.misses, out.expired, i);
    ExpiredIsUnavailable(call.world, call.context, out.misses, out.expired, out.reply, id);
    EveryPostIsAnswered(enabled, call, before, out, after);
    j := UnavailableIsServed(call, out.local, out.reply.results, out.end.results,
                             OutageOf(enabled, call, out.local, out.reply.results, AfterLocal(enabled, call, before),
                                      out.end), id);
  }

  lemma {:induction false} UnavailableIsServed(call: Call, local: map<TweetId, Lookup>, remote: map<TweetId, Lookup>,
                                               results: map<TweetId, Lookup>, o: OutagePass, id: TweetId)
    returns (j: nat)
    requires Answered(call, local, remote, results, o) && o.enabled && o.before == local + remote
    requires id in remote && remote[id] == Err(LabelCacheUnavailable)
    ensures j < |o.unavailable| && o.unavailable[j] == id && id in results
    ensures KeepsLive(if id in StillSeen(o, j) then Ok(StillSeen(o, j)[id].labels) else Err(LabelCacheUnavailable),
                      results[id], call.nowMs)
  {
    j :| j < |o.unavailable| && o.unavailable[j] == id;
  }

  lemma {:induction false} ExpiredIsMissed(p: LocalPass, local: map<TweetId, Lookup>, misses: seq<TweetId>,
                                           expired: set<TweetId>, i: nat)
    requires LocalUpTo(p, local, misses, expired, |p.ids|) && ExpiredAt(p, i)
    ensures p.ids[i] in misses && p.ids[i] in expired
  {
    assert !HitAt(p, i);
  }

  lemma {:induction false} ExpiredIsUnavailable(world: World, context: ReadContext, misses: seq<TweetId>,
                                                expired: set<TweetId>, reply: Reply, id: TweetId)
    requires LookedUp(ViewOf(world, context, misses, expired), ScansOf(world, reply.fallback), reply)
    requires id in misses && id in expired && Serves(world, context, id) && ReadOf(world, context, id).Failed?
    ensures id in reply.results && reply.results[id] == Err(LabelCacheUnavailable)
    ensures id !in reply.fallback && forall job :: job in reply.fills ==> job.tweetId != id
  {
    ServedPartMembers(world, context, misses, true);
    var first := OutageLadder(ViewOf(world, context, misses, expired), ScansOf(world, reply.fallback), reply, id);
  }

  // ---- What gets into the cache ----

  ghost predicate AllEntries(cache: Shared, P: (TweetId, Entry) -> bool) {
    forall id :: id in cache ==> P(id, cache[id])
  }

  /** Whatever holds of the entries that were there, of those of other tasks and of good
      answers given the full TTL, holds of every entry: nothing else is ever cached,
      no failure and no answer of a post dated in the future. */
  lemma {:induction false} OnlyGoodAnswersAreCached(b: BackfillPass, order: seq<TweetId>, P: (TweetId, Entry) -> bool)
    requires AllEntries(b.cache, P)
    requires forall turn, cache {:trigger b.meanwhile(turn, cache)} ::
               AllEntries(cache, P) ==> AllEntries(b.meanwhile(turn, cache), P)
    requires forall id :: id in b.remote && b.remote[id].Ok? && !b.futureDated(id) ==>
               P(id, Entry(b.remote[id].value, b.clock(id) + HOT_TTL_MS))
    ensures AllEntries(Backfilled(b, order), P)
  {
    if order != [] {
      OnlyGoodAnswersAreCached(b, order[..|order| - 1], P);
    }
  }

  ghost function GoodAnswers(b: BackfillPass, order: seq<TweetId>): Shared {
    map id | id in order && id in b.remote && b.remote[id].Ok? && !b.futureDated(id) ::
      Entry(b.remote[id].value, b.clock(id) + HOT_TTL_MS)
  }

  lemma GoodAnswersGrow(b: BackfillPass, order: seq<TweetId>, id: TweetId)
    requires id in b.remote
    ensures GoodAnswers(b, order + [id]) ==
            if Cacheable(b.remote[id], b.futureDated(id))
            then GoodAnswers(b, order)[id := Entry(b.remote[id].value, b.clock(id) + HOT_TTL_MS)]
            else GoodAnswers(b, order)
  {
  }

  lemma QuietTurn(b: BackfillPass, id: TweetId, turn: nat, cache: Shared)
    requires b.enabled && id in b.remote
    requires forall turn, cache {:trigger b.meanwhile(turn, cache)} :: b.meanwhile(turn, cache) == cache
    ensures AfterTurn(b, id, turn, cache) ==
            if Cacheable(b.remote[id], b.futureDated(id))
            then cache[id := Entry(b.remote[id].value, b.clock(id) + HOT_TTL_MS)] else cache
  {
  }

  lemma AddedLast(cache: Shared, good: Shared, id: TweetId, entry: Entry)
    ensures (cache + good)[id := entry] == cache + good[id := entry]
  {
  }

  /** With no other task about, the cache gets exactly the good answers. */
  lemma {:induction false} QuietBackfill(b: BackfillPass, order: seq<TweetId>)
    requires b.enabled && forall turn, cache {:trigger b.meanwhile(turn, cache)} :: b.meanwhile(turn, cache) == cache
    requires forall n :: 0 <= n < |order| ==> order[n] in b.remote
    ensures Backfilled(b, order) == b.cache + GoodAnswers(b, order)
  {
    if order != [] {
      var init, id := order[..|order| - 1], order[|order| - 1];
      QuietBackfill(b, init);
      assert order == init + [id];
      GoodAnswersGrow(b, init, id);
      BackfilledNext(b, init, id);
      QuietTurn(b, id, b.first + |init|, Backfilled(b, init));
      if Cacheable(b.remote[id], b.futureDated(id)) {
        AddedLast(b.cache, GoodAnswers(b, init), id, Entry(b.remote[id].value, b.clock(id) + HOT_TTL_MS));
      }
    }
  }
}
