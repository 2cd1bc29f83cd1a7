/** The plan of an evaluate-tweets call, and what it promises for every request. */
module ChunkPlanner {
  import opened Basics
  import opened ChunkGroups
  import opened ChunkPacking

  /** The indices of every request are planned into chunks as `PlanOk` says: 1 to
      50 distinct indices each, all indices covered, each quote in a chunk with
      the first standalone index of the tweet it is quoted in, exactly the
      oversized outers in more than one chunk, and neighbours that do not fit
      one RPC together. */
  method PlanEvaluateChunks(tweets: seq<TweetData>) returns (chunks: seq<seq<nat>>)
    ensures PlanOk(tweets, chunks)
  {
    if forall i :: 0 <= i < |tweets| ==> tweets[i].quotedIn.None? {
      chunks := ConsecutiveChunks(|tweets|);
      ConsecutivePlan(tweets, chunks);
      return;
    }
    var standalone := StandaloneIndex(tweets);
    var quoted := QuotedOuters(tweets, standalone);
    var groups, places, groupOf := GroupByOuter(tweets, standalone, quoted);
    ghost var home;
    chunks, home := PackGroups(groups, places);
    GroupedPlan(Parts(tweets, standalone, quoted, groups, places, groupOf, chunks, home));
  }

  // ---- Requests without quotes ----

  /** Chunk `c` holds the 50 indices from 50c on, or as many as are left. */
  ghost predicate Consecutive(n: nat, chunks: seq<seq<nat>>) {
    forall c :: 0 <= c < |chunks| ==>
      && 0 < n - MAX_BATCH * c
      && |chunks[c]| == Min(MAX_BATCH, n - MAX_BATCH * c)
      && forall p :: 0 <= p < |chunks[c]| ==> chunks[c][p] == MAX_BATCH * c + p
  }

  method ConsecutiveChunks(n: nat) returns (chunks: seq<seq<nat>>)
    ensures Consecutive(n, chunks) && n <= MAX_BATCH * |chunks|
  {
    chunks := [];
    while MAX_BATCH * |chunks| < n
      invariant Consecutive(n, chunks)
      decreases n - MAX_BATCH * |chunks|
    {
      var from := MAX_BATCH * |chunks|;
      chunks := chunks + [seq(Min(MAX_BATCH, n - from), p requires 0 <= p => from + p)];
    }
  }

  lemma InConsecutive(n: nat, chunks: seq<seq<nat>>, c: nat, i: nat)
    requires Consecutive(n, chunks) && c < |chunks|
    ensures i in chunks[c] <==> MAX_BATCH * c <= i < n && i < MAX_BATCH * (c + 1)
  {
    if MAX_BATCH * c <= i < n && i < MAX_BATCH * (c + 1) {
      assert chunks[c][i - MAX_BATCH * c] == i;
    }
  }

  lemma ConsecutivePlan(tweets: seq<TweetData>, chunks: seq<seq<nat>>)
    requires forall i :: 0 <= i < |tweets| ==> tweets[i].quotedIn.None?
    requires Consecutive(|tweets|, chunks) && |tweets| <= MAX_BATCH * |chunks|
    ensures PlanOk(tweets, chunks)
  {
    forall c, i: nat | 0 <= c < |chunks| && i in chunks[c] ensures i < |tweets| {
      InConsecutive(|tweets|, chunks, c, i);
    }
    forall i: nat | i < |tweets| ensures Together(chunks, i, i) {
      InConsecutive(|tweets|, chunks, i / MAX_BATCH, i);
    }
    forall i: nat ensures !InTwoChunks(chunks, i) && !OversizedOuter(tweets, i) {
      forall c, d | 0 <= c < d < |chunks| ensures i !in chunks[c] || i !in chunks[d] {
        InConsecutive(|tweets|, chunks, c, i);
        InConsecutive(|tweets|, chunks, d, i);
      }
      if i < |tweets| {
        assert QuotesOf(tweets, tweets[i].tweetId) == {};
      }
    }
  }

  // ---- Requests with quotes ----

  ghost function Members(s: seq<nat>): set<nat> {
    set x | x in s
  }

  lemma {:induction false} DistinctSize(s: seq<nat>)
    requires Distinct(s)
    ensures |Members(s)| == |s|
  {
    if s != [] {
      var n := |s| - 1;
      DistinctSize(s[..n]);
      assert Members(s) == Members(s[..n]) + {s[n]};
    }
  }

  /** The group of an outer tweet is the tweet and all its quotes. */
  lemma GroupIsOuterAndQuotes(tweets: seq<TweetData>, standalone: map<Id, nat>, quoted: set<Id>,
                              groups: seq<seq<nat>>, places: Places, groupOf: map<Id, nat>, outer: Id)
    requires OutersOk(tweets, standalone, quoted) && outer in groupOf
    requires Grouping(tweets, standalone, quoted, groups, places, groupOf, |tweets|)
    ensures |groups[groupOf[outer]]| == 1 + |QuotesOf(tweets, outer)|
  {
    var g := groupOf[outer];
    var group := groups[g];
    var rest := group[1..];
    forall i, j | 0 <= i < j < |rest| ensures rest[i] != rest[j] {
      assert places[groups[g][i + 1]] == (g, i + 1) && places[groups[g][j + 1]] == (g, j + 1);
    }
    DistinctSize(rest);
    forall x | x in rest ensures x in QuotesOf(tweets, outer) {
      var p :| 0 <= p < |rest| && rest[p] == x;
      assert places[groups[g][p + 1]] == (g, p + 1) && places[groups[g][0]] == (g, 0);
      assert OuterOf(tweets, standalone, quoted, x).Some?;
    }
    forall x | x in QuotesOf(tweets, outer) ensures x in rest {
      assert OuterOf(tweets, standalone, quoted, x) == Some(outer);
      var p := places[x].1;
      assert groups[g][p] == x && p > 0;
      assert rest[p - 1] == x;
    }
    assert Members(rest) == QuotesOf(tweets, outer);
  }

  /** The parts of a plan with quotes: the outer tweets, the groups, the chunks. */
  datatype Parts = Parts(
    tweets: seq<TweetData>, standalone: map<Id, nat>, quoted: set<Id>,
    groups: seq<seq<nat>>, places: Places, groupOf: map<Id, nat>,
    chunks: seq<seq<nat>>, home: map<nat, nat>)

  /** Everything that was established about them. */
  ghost predicate Planned(parts: Parts) {
    var Parts(tweets, standalone, quoted, groups, places, groupOf, chunks, home) := parts;
    && OutersOk(tweets, standalone, quoted)
    && (forall i :: 0 <= i < |tweets| && tweets[i].quotedIn.None? ==> tweets[i].tweetId in standalone)
    && (forall id :: id in quoted <==> IsQuotedOuter(tweets, standalone, id))
    && Grouping(tweets, standalone, quoted, groups, places, groupOf, |tweets|)
    && Packed(groups, places, chunks, home, |groups|, 0)
    && Spread(groups, home, |groups|)
  }

  lemma PlannedEntry(parts: Parts, i: nat)
    requires Planned(parts) && i < |parts.tweets|
    ensures i in parts.places
    ensures !Repeated(parts.groups, parts.places, i) ==> AtHome(parts.groups, parts.places, parts.chunks, parts.home, i)
    ensures Together(parts.chunks, i, i)
  {
    var Parts(tweets, standalone, quoted, groups, places, groupOf, chunks, home) := parts;
    assert Taken(places, i, |groups|, 0);
    if Repeated(groups, places, i) {
      var g := places[i].0;
      var x := groups[g][1];
      assert places[groups[g][1]] == (g, 1);
      assert Taken(places, x, |groups|, 0) && AtHome(groups, places, chunks, home, x);
      assert groups[g][0] == i;
    }
  }

  lemma PlannedQuote(parts: Parts, i: nat, h: nat)
    requires Planned(parts) && QuoteOf(parts.tweets, i, h)
    ensures Together(parts.chunks, i, h)
  {
    var Parts(tweets, standalone, quoted, groups, places, groupOf, chunks, home) := parts;
    var outer := tweets[i].quotedIn.value;
    assert outer in standalone && standalone[outer] == h;
    assert IsQuotedOuter(tweets, standalone, outer);
    PlannedEntry(parts, i);
    assert OuterOf(tweets, standalone, quoted, i) == Some(outer);
    assert groups[places[i].0][0] == h;
    assert i != h;
  }

  /** An index in two chunks is the outer of a group that was cut. */
  lemma OnlyOutersRepeat(parts: Parts, i: nat)
    requires Planned(parts) && InTwoChunks(parts.chunks, i)
    ensures OversizedOuter(parts.tweets, i)
  {
    var Parts(tweets, standalone, quoted, groups, places, groupOf, chunks, home) := parts;
    var c, d :| 0 <= c < d < |chunks| && i in chunks[c] && i in chunks[d];
    assert Belongs(groups, places, home, c, i, |groups|, 0) && Belongs(groups, places, home, d, i, |groups|, 0);
    var g := places[i].0;
    assert groups[g][0] == i;
    var outer := OuterOf(tweets, standalone, quoted, i).value;
    assert standalone[outer] == i;
    GroupIsOuterAndQuotes(tweets, standalone, quoted, groups, places, groupOf, outer);
  }

  lemma OversizedOutersRepeat(parts: Parts, i: nat)
    requires Planned(parts) && OversizedOuter(parts.tweets, i)
    ensures InTwoChunks(parts.chunks, i)
  {
    var Parts(tweets, standalone, quoted, groups, places, groupOf, chunks, home) := parts;
    var outer := tweets[i].tweetId;
    assert standalone[outer] == i;
    var q :| q in QuotesOf(tweets, outer);
    assert IsQuotedOuter(tweets, standalone, outer);
    PlannedEntry(parts, i);
    OuterOfHead(tweets, standalone, quoted, outer);
    var g := groupOf[outer];
    GroupIsOuterAndQuotes(tweets, standalone, quoted, groups, places, groupOf, outer);
    assert IsSpread(groups[g], home);
    forall p | p == 1 || p == MAX_BATCH ensures home[groups[g][p]] < |chunks| && i in chunks[home[groups[g][p]]] {
      assert places[groups[g][p]] == (g, p);
      PlannedEntry(parts, groups[g][p]);
    }
  }

  lemma GroupedPlan(parts: Parts)
    requires Planned(parts)
    ensures PlanOk(parts.tweets, parts.chunks)
  {
    var Parts(tweets, standalone, quoted, groups, places, groupOf, chunks, home) := parts;
    forall c, i | 0 <= c < |chunks| && i in chunks[c] ensures i < |tweets| {
      assert Belongs(groups, places, home, c, i, |groups|, 0);
    }
    forall i: nat | i < |tweets| ensures Together(chunks, i, i) {
      PlannedEntry(parts, i);
    }
    forall i: nat, h: nat | QuoteOf(tweets, i, h) ensures Together(chunks, i, h) {
      PlannedQuote(parts, i, h);
    }
    forall i: nat ensures InTwoChunks(chunks, i) <==> OversizedOuter(tweets, i) {
      if InTwoChunks(chunks, i) {
        OnlyOutersRepeat(parts, i);
      }
      if OversizedOuter(tweets, i) {
        OversizedOutersRepeat(parts, i);
      }
    }
  }

  // ---- How many RPCs ----

  ghost function EntriesSent(chunks: seq<seq<nat>>): nat {
    if chunks == [] then 0 else EntriesSent(chunks[..|chunks| - 1]) + |chunks[|chunks| - 1]|
  }

  lemma {:induction false} TightChunksAreFull(chunks: seq<seq<nat>>)
    requires Tight(chunks) && chunks != []
    ensures 2 * EntriesSent(chunks) >= 51 * (|chunks| - 1) + |chunks[0]| + |chunks[|chunks| - 1]|
  {
    var n := |chunks| - 1;
    if n > 0 {
      TightChunksAreFull(chunks[..n]);
    }
  }

  /** A plan uses at most two RPCs for every 51 entries it sends, plus one. */
  lemma RpcCountBound(tweets: seq<TweetData>, chunks: seq<seq<nat>>)
    requires PlanOk(tweets, chunks)
    ensures |chunks| <= 2 * EntriesSent(chunks) / 51 + 1
  {
    if chunks != [] {
      TightChunksAreFull(chunks);
    }
  }
}
