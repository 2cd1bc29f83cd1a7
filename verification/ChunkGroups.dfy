/** Planning the RPCs of one evaluate-tweets call: at most 50 entries each, every
    quote with the tweet that quotes it, and few RPCs. */
module ChunkGroups {
  import opened Basics

  type Id = nat

  /** A requested tweet; a quote names the tweet it was quoted in. */
  datatype TweetData = TweetData(tweetId: Id, quotedIn: Option<Id>)

  const MAX_BATCH: nat := 50

  // ---- What a request says ----

  /** The first index at which tweet `id` is requested on its own. */
  ghost predicate FirstStandalone(tweets: seq<TweetData>, id: Id, i: nat) {
    && i < |tweets| && tweets[i] == TweetData(id, None)
    && forall j :: 0 <= j < i ==> tweets[j] != TweetData(id, None)
  }

  /** The quotes of tweet `id`. */
  ghost function QuotesOf(tweets: seq<TweetData>, id: Id): set<nat> {
    set i | 0 <= i < |tweets| && tweets[i].quotedIn == Some(id)
  }

  /** Index `i` is an outer tweet that does not fit one RPC with all its quotes. */
  ghost predicate OversizedOuter(tweets: seq<TweetData>, i: nat) {
    i < |tweets| && FirstStandalone(tweets, tweets[i].tweetId, i) &&
    1 + |QuotesOf(tweets, tweets[i].tweetId)| > MAX_BATCH
  }

  /** Index `i` is a quote, and `h` the first standalone index of the tweet it is quoted in. */
  ghost predicate QuoteOf(tweets: seq<TweetData>, i: nat, h: nat) {
    i < |tweets| && tweets[i].quotedIn.Some? && FirstStandalone(tweets, tweets[i].quotedIn.value, h)
  }

  /** Indices `i` and `h` are together in some chunk. */
  ghost predicate Together(chunks: seq<seq<nat>>, i: nat, h: nat) {
    exists c :: 0 <= c < |chunks| && i in chunks[c] && h in chunks[c]
  }

  ghost predicate InTwoChunks(chunks: seq<seq<nat>>, i: nat) {
    exists c, d :: 0 <= c < d < |chunks| && i in chunks[c] && i in chunks[d]
  }

  /** Any two neighbours hold more entries than fit one RPC. */
  ghost predicate Tight(chunks: seq<seq<nat>>) {
    forall c :: 0 < c < |chunks| ==> |chunks[c - 1]| + |chunks[c]| > MAX_BATCH
  }

  ghost predicate PlanOk(tweets: seq<TweetData>, chunks: seq<seq<nat>>) {
    && (forall c :: 0 <= c < |chunks| ==> 1 <= |chunks[c]| <= MAX_BATCH && Distinct(chunks[c]))
    && (forall c, i :: 0 <= c < |chunks| && i in chunks[c] ==> i < |tweets|)
    && (forall i: nat :: i < |tweets| ==> Together(chunks, i, i))
    && (forall i: nat, h: nat :: QuoteOf(tweets, i, h) ==> Together(chunks, i, h))
    && (forall i: nat :: InTwoChunks(chunks, i) <==> OversizedOuter(tweets, i))
    && Tight(chunks)
  }

  // ---- Outer tweets ----

  method StandaloneIndex(tweets: seq<TweetData>) returns (standalone: map<Id, nat>)
    ensures forall id :: id in standalone ==> FirstStandalone(tweets, id, standalone[id])
    ensures forall i :: 0 <= i < |tweets| && tweets[i].quotedIn.None? ==> tweets[i].tweetId in standalone
  {
    standalone := map[];
    for i := 0 to |tweets|
      invariant forall id :: id in standalone ==> standalone[id] < i && FirstStandalone(tweets, id, standalone[id])
      invariant forall k :: 0 <= k < i && tweets[k].quotedIn.None? ==> tweets[k].tweetId in standalone
    {
      if tweets[i].quotedIn.None? && tweets[i].tweetId !in standalone {
        standalone := standalone[tweets[i].tweetId := i];
      }
    }
  }

  /** Tweets that are both requested on their own and quoted by another entry. */
  ghost predicate IsQuotedOuter(tweets: seq<TweetData>, standalone: map<Id, nat>, id: Id) {
    id in standalone && exists i :: 0 <= i < |tweets| && tweets[i].quotedIn == Some(id)
  }

  method QuotedOuters(tweets: seq<TweetData>, standalone: map<Id, nat>) returns (quoted: set<Id>)
    ensures forall id :: id in quoted <==> IsQuotedOuter(tweets, standalone, id)
  {
    quoted := {};
    for i := 0 to |tweets|
      invariant forall id :: id in quoted ==> IsQuotedOuter(tweets, standalone, id)
      invariant forall k :: 0 <= k < i && tweets[k].quotedIn.Some? && tweets[k].quotedIn.value in standalone ==>
                  tweets[k].quotedIn.value in quoted
    {
      if tweets[i].quotedIn.Some? && tweets[i].quotedIn.value in standalone {
        quoted := quoted + {tweets[i].quotedIn.value};
      }
    }
  }

  // ---- Groups ----

  /** The outer tweet index `i` is grouped under: the one that quotes it, or itself. */
  function OuterOf(tweets: seq<TweetData>, standalone: map<Id, nat>, quoted: set<Id>, i: nat): Option<Id>
    requires i < |tweets|
  {
    match tweets[i].quotedIn
    case Some(outer) => if outer in quoted then Some(outer) else None
    case None =>
      var id := tweets[i].tweetId;
      if id in quoted && id in standalone && standalone[id] == i then Some(id) else None
  }

  /** Where an entry is: in which group, at which position. */
  type Places = map<nat, (nat, nat)>

  /** Groups and places are inverse to each other, so no entry is in two places. */
  ghost predicate PlacesOk(groups: seq<seq<nat>>, places: Places) {
    && (forall x :: x in places ==>
          var (g, p) := places[x]; g < |groups| && p < |groups[g]| && groups[g][p] == x)
    && (forall g, p :: 0 <= g < |groups| && 0 <= p < |groups[g]| ==>
          groups[g][p] in places && places[groups[g][p]] == (g, p))
    && (forall g :: 0 <= g < |groups| ==> groups[g] != [])
  }

  /** Entries of an outer tweet are in its group, which its own index leads;
      any other entry is alone. */
  ghost predicate GroupedByOuter(tweets: seq<TweetData>, standalone: map<Id, nat>, quoted: set<Id>,
                                 groups: seq<seq<nat>>, places: Places, groupOf: map<Id, nat>)
  {
    && (forall id :: id in groupOf ==>
          id in quoted && id in standalone && groupOf[id] < |groups| &&
          groups[groupOf[id]] != [] && groups[groupOf[id]][0] == standalone[id])
    && (forall x :: x in places ==>
          x < |tweets| && places[x].0 < |groups| &&
          match OuterOf(tweets, standalone, quoted, x)
          case None => groups[places[x].0] == [x]
          case Some(id) => id in groupOf && places[x].0 == groupOf[id])
  }

  ghost predicate OutersOk(tweets: seq<TweetData>, standalone: map<Id, nat>, quoted: set<Id>) {
    && (forall id :: id in standalone ==> FirstStandalone(tweets, id, standalone[id]))
    && (forall id :: id in quoted ==> id in standalone)
  }

  lemma OuterOfHead(tweets: seq<TweetData>, standalone: map<Id, nat>, quoted: set<Id>, id: Id)
    requires OutersOk(tweets, standalone, quoted) && id in quoted
    ensures OuterOf(tweets, standalone, quoted, standalone[id]) == Some(id)
  {
  }

  lemma PushGroup(groups: seq<seq<nat>>, places: Places, x: nat)
    requires PlacesOk(groups, places) && x !in places
    ensures PlacesOk(groups + [[x]], places[x := (|groups|, 0)])
  {
  }

  lemma JoinGroup(groups: seq<seq<nat>>, places: Places, g: nat, x: nat)
    requires PlacesOk(groups, places) && x !in places && g < |groups|
    ensures PlacesOk(groups[g := groups[g] + [x]], places[x := (g, |groups[g]|)])
  {
    var groups', places' := groups[g := groups[g] + [x]], places[x := (g, |groups[g]|)];
    forall y | y in places'
      ensures var (h, p) := places'[y]; h < |groups'| && p < |groups'[h]| && groups'[h][p] == y
    {
      if y != x {
        var (h, p) := places[y];
        assert groups[h][p] == y;
      }
    }
  }

  /** The entries placed after `i` turns: those before `i`, and the outer tweets
      of the groups begun. */
  ghost predicate PlacedUpTo(standalone: map<Id, nat>, places: Places, groupOf: map<Id, nat>, i: nat) {
    && (forall k: nat :: k < i ==> k in places)
    && (forall id :: id in groupOf ==> id in standalone && standalone[id] in places)
    && (forall x :: x in places && x >= i ==> exists id :: id in groupOf && standalone[id] == x)
  }

  ghost predicate Grouping(tweets: seq<TweetData>, standalone: map<Id, nat>, quoted: set<Id>,
                           groups: seq<seq<nat>>, places: Places, groupOf: map<Id, nat>, i: nat)
  {
    && i <= |tweets|
    && PlacesOk(groups, places)
    && GroupedByOuter(tweets, standalone, quoted, groups, places, groupOf)
    && PlacedUpTo(standalone, places, groupOf, i)
  }

  /** An outer tweet whose group has begun is not at an entry that stands alone. */
  lemma AloneIsNoOuter(tweets: seq<TweetData>, standalone: map<Id, nat>, quoted: set<Id>, groupOf: map<Id, nat>, i: nat)
    requires OutersOk(tweets, standalone, quoted) && i < |tweets|
    requires OuterOf(tweets, standalone, quoted, i).None? && forall id :: id in groupOf ==> id in quoted
    ensures forall id :: id in groupOf ==> standalone[id] != i
  {
    forall id | id in groupOf ensures standalone[id] != i {
      OuterOfHead(tweets, standalone, quoted, id);
    }
  }

  lemma AloneIsGrouped(tweets: seq<TweetData>, standalone: map<Id, nat>, quoted: set<Id>,
                       groups: seq<seq<nat>>, places: Places, groupOf: map<Id, nat>, i: nat)
    requires i < |tweets| && OuterOf(tweets, standalone, quoted, i).None?
    requires GroupedByOuter(tweets, standalone, quoted, groups, places, groupOf)
    ensures GroupedByOuter(tweets, standalone, quoted, groups + [[i]], places[i := (|groups|, 0)], groupOf)
  {
  }

  /** An entry not grouped under an outer tweet becomes a group of its own. */
  lemma AddAlone(tweets: seq<TweetData>, standalone: map<Id, nat>, quoted: set<Id>,
                 groups: seq<seq<nat>>, places: Places, groupOf: map<Id, nat>, i: nat)
    requires OutersOk(tweets, standalone, quoted) && i < |tweets|
    requires Grouping(tweets, standalone, quoted, groups, places, groupOf, i)
    requires OuterOf(tweets, standalone, quoted, i).None?
    ensures Grouping(tweets, standalone, quoted, groups + [[i]], places[i := (|groups|, 0)], groupOf, i + 1)
  {
    AloneIsNoOuter(tweets, standalone, quoted, groupOf, i);
    AloneIsGrouped(tweets, standalone, quoted, groups, places, groupOf, i);
    PushGroup(groups, places, i);
  }

  /** The first entry of an outer tweet begins its group, led by the outer itself. */
  lemma BeginGroup(tweets: seq<TweetData>, standalone: map<Id, nat>, quoted: set<Id>,
                   groups: seq<seq<nat>>, places: Places, groupOf: map<Id, nat>, i: nat, outer: Id)
    requires OutersOk(tweets, standalone, quoted) && i < |tweets|
    requires Grouping(tweets, standalone, quoted, groups, places, groupOf, i)
    requires outer in quoted && outer !in groupOf
    ensures Grouping(tweets, standalone, quoted, groups + [[standalone[outer]]],
                     places[standalone[outer] := (|groups|, 0)], groupOf[outer := |groups|], i)
  {
    OuterOfHead(tweets, standalone, quoted, outer);
    PushGroup(groups, places, standalone[outer]);
  }

  /** A quote joins the group of its outer tweet. */
  lemma AddQuote(tweets: seq<TweetData>, standalone: map<Id, nat>, quoted: set<Id>,
                 groups: seq<seq<nat>>, places: Places, groupOf: map<Id, nat>, i: nat, outer: Id)
    requires OutersOk(tweets, standalone, quoted) && i < |tweets|
    requires Grouping(tweets, standalone, quoted, groups, places, groupOf, i)
    requires OuterOf(tweets, standalone, quoted, i) == Some(outer) && outer in groupOf && i != standalone[outer]
    ensures var g := groupOf[outer];
            Grouping(tweets, standalone, quoted, groups[g := groups[g] + [i]],
                     places[i := (g, |groups[g]|)], groupOf, i + 1)
  {
    var g := groupOf[outer];
    JoinGroup(groups, places, g, i);
    QuoteIsNoOuter(tweets, standalone, quoted, groupOf, i, outer);
    QuoteIsGrouped(tweets, standalone, quoted, groups, places, groupOf, i, outer);
  }

  lemma QuoteIsNoOuter(tweets: seq<TweetData>, standalone: map<Id, nat>, quoted: set<Id>, groupOf: map<Id, nat>, i: nat,
                       outer: Id)
    requires OutersOk(tweets, standalone, quoted) && i < |tweets| && outer in quoted && i != standalone[outer]
    requires OuterOf(tweets, standalone, quoted, i) == Some(outer) && forall id :: id in groupOf ==> id in quoted
    ensures forall id :: id in groupOf ==> standalone[id] != i
  {
    forall id | id in groupOf ensures standalone[id] != i {
      OuterOfHead(tweets, standalone, quoted, id);
    }
  }

  lemma QuoteIsGrouped(tweets: seq<TweetData>, standalone: map<Id, nat>, quoted: set<Id>,
                       groups: seq<seq<nat>>, places: Places, groupOf: map<Id, nat>, i: nat, outer: Id)
    requires i < |tweets| && OuterOf(tweets, standalone, quoted, i) == Some(outer) && outer in groupOf
    requires OutersOk(tweets, standalone, quoted) && PlacesOk(groups, places) && standalone[outer] in places
    requires GroupedByOuter(tweets, standalone, quoted, groups, places, groupOf)
    ensures var g := groupOf[outer];
            GroupedByOuter(tweets, standalone, quoted, groups[g := groups[g] + [i]], places[i := (g, |groups[g]|)],
                           groupOf)
  {
    var g := groupOf[outer];
    forall x | x in places && OuterOf(tweets, standalone, quoted, x).None? ensures places[x].0 != g {
      OuterOfHead(tweets, standalone, quoted, outer);
    }
  }

  lemma AddOuter(tweets: seq<TweetData>, standalone: map<Id, nat>, quoted: set<Id>,
                 groups: seq<seq<nat>>, places: Places, groupOf: map<Id, nat>, i: nat, outer: Id)
    requires i < |tweets| && Grouping(tweets, standalone, quoted, groups, places, groupOf, i)
    requires outer in groupOf && i == standalone[outer]
    ensures Grouping(tweets, standalone, quoted, groups, places, groupOf, i + 1)
  {
  }

  /** Begins the group of an outer tweet unless it has one. */
  method OpenGroup(tweets: seq<TweetData>, standalone: map<Id, nat>, quoted: set<Id>,
                   before: seq<seq<nat>>, ghost placed: Places, groupOf: map<Id, nat>, i: nat, outer: Id)
    returns (groups: seq<seq<nat>>, ghost places: Places, groupOf': map<Id, nat>)
    requires OutersOk(tweets, standalone, quoted) && i < |tweets| && outer in quoted
    requires Grouping(tweets, standalone, quoted, before, placed, groupOf, i)
    ensures Grouping(tweets, standalone, quoted, groups, places, groupOf', i) && outer in groupOf'
  {
    groups, places, groupOf' := before, placed, groupOf;
    if outer !in groupOf {
      BeginGroup(tweets, standalone, quoted, before, placed, groupOf, i, outer);
      places := placed[standalone[outer] := (|before|, 0)];
      groupOf' := groupOf[outer := |before|];
      groups := before + [[standalone[outer]]];
    }
  }

  /** Places entry `i`, in the group of its outer tweet or alone. */
  method PlaceEntry(tweets: seq<TweetData>, standalone: map<Id, nat>, quoted: set<Id>,
                    before: seq<seq<nat>>, ghost placed: Places, groupOf: map<Id, nat>, i: nat)
    returns (groups: seq<seq<nat>>, ghost places: Places, groupOf': map<Id, nat>)
    requires OutersOk(tweets, standalone, quoted) && i < |tweets|
    requires Grouping(tweets, standalone, quoted, before, placed, groupOf, i)
    ensures Grouping(tweets, standalone, quoted, groups, places, groupOf', i + 1)
  {
    var found := OuterOf(tweets, standalone, quoted, i);
    if found.None? {
      AddAlone(tweets, standalone, quoted, before, placed, groupOf, i);
      return before + [[i]], placed[i := (|before|, 0)], groupOf;
    }
    var outer := found.value;
    groups, places, groupOf' := OpenGroup(tweets, standalone, quoted, before, placed, groupOf, i, outer);
    if i != standalone[outer] {
      AddQuote(tweets, standalone, quoted, groups, places, groupOf', i, outer);
      var group := groupOf'[outer];
      places := places[i := (group, |groups[group]|)];
      groups := groups[group := groups[group] + [i]];
    } else {
      AddOuter(tweets, standalone, quoted, groups, places, groupOf', i, outer);
    }
  }

  method GroupByOuter(tweets: seq<TweetData>, standalone: map<Id, nat>, quoted: set<Id>)
    returns (groups: seq<seq<nat>>, ghost places: Places, groupOf: map<Id, nat>)
    requires OutersOk(tweets, standalone, quoted)
    ensures Grouping(tweets, standalone, quoted, groups, places, groupOf, |tweets|)
  {
    groups, places, groupOf := [], map[], map[];
    for i := 0 to |tweets|
      invariant Grouping(tweets, standalone, quoted, groups, places, groupOf, i)
    {
      groups, places, groupOf := PlaceEntry(tweets, standalone, quoted, groups, places, groupOf, i);
    }
  }
}
