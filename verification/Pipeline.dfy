/** The stages of a candidate pipeline, from fetched candidates to the selected
    ones: hydrate, filter, score, select, hydrate again, filter again, truncate. */
module Pipeline {
  import opened Basics
  import opened CachedHydrator
  import opened StableSort

  /** A hydrator or a scorer: what it gives for a list of candidates, and how a
      candidate takes it up. */
  datatype Component<!C> = Component(enabled: bool, run: seq<C> -> seq<Hydration<C>>, update: (C, C) -> C)

  /** A filter; `keep(earlier, c)` is its decision on a candidate after it has been
      asked about the earlier ones, so that it may keep state between calls. */
  datatype Filter<!C> = Filter(enabled: bool, keep: (seq<C>, C) -> bool)

  datatype Selector<!C> = Selector(enabled: bool, size: Option<nat>, score: C -> real)

  /** A source, with what it answers to this query. */
  datatype Source<+C> = Source(enabled: bool, answer: Result<seq<C>, string>)

  datatype Stages<!C> = Stages(
    sources: seq<Source<C>>,
    hydrators: seq<Component<C>>,
    filters: seq<Filter<C>>,
    scorers: seq<Component<C>>,
    selector: Selector<C>,
    postHydrators: seq<Component<C>>,
    postFilters: seq<Filter<C>>,
    resultSize: nat)

  /** What a run returns, with the non-selected candidates that side effects get. */
  datatype PipelineResult<+C> = PipelineResult(
    retrieved: seq<C>, filtered: seq<C>, selected: seq<C>, nonSelected: seq<C>)

  // ---- Hydrators and scorers ----

  /** A component's results, all failed when it gives the wrong number. */
  function RunComponent<C>(component: Component<C>, candidates: seq<C>): (r: seq<Hydration<C>>)
    ensures |r| == |candidates|
  {
    var results := component.run(candidates);
    if |results| == |candidates| then results else seq(|candidates|, _ => Err("length_mismatch"))
  }

  /** The candidates once the first `n` hydrators have been applied, each to what
      it gave for the candidates as they came in. */
  ghost function HydratedBy<C>(hydrators: seq<Component<C>>, candidates: seq<C>, n: nat): (r: seq<C>)
    requires n <= |hydrators|
    ensures |r| == |candidates|
  {
    if n == 0 then candidates else
    var before := HydratedBy(hydrators, candidates, n - 1);
    var h := hydrators[n - 1];
    if h.enabled then Updated(h.update, before, RunComponent(h, candidates)) else before
  }

  method RunHydrators<C>(hydrators: seq<Component<C>>, candidates: seq<C>) returns (hydrated: seq<C>)
    ensures hydrated == HydratedBy(hydrators, candidates, |hydrators|)
  {
    var results: seq<seq<Hydration<C>>> := [];
    for n := 0 to |hydrators|
      invariant |results| == n
      invariant forall m :: 0 <= m < n && hydrators[m].enabled ==> results[m] == RunComponent(hydrators[m], candidates)
    {
      results := results + [if hydrators[n].enabled then RunComponent(hydrators[n], candidates) else []];
    }
    var current := new C[|candidates|](i requires 0 <= i < |candidates| => candidates[i]);
    assert current[..] == candidates;
    for n := 0 to |hydrators|
      invariant current[..] == HydratedBy(hydrators, candidates, n)
    {
      if hydrators[n].enabled {
        UpdateAll(hydrators[n].update, current, results[n]);
      }
    }
    hydrated := current[..];
  }

  /** The candidates once the first `n` scorers have been applied, one after another. */
  ghost function ScoredBy<C>(scorers: seq<Component<C>>, candidates: seq<C>, n: nat): (r: seq<C>)
    requires n <= |scorers|
    ensures |r| == |candidates|
  {
    if n == 0 then candidates else
    var before := ScoredBy(scorers, candidates, n - 1);
    var s := scorers[n - 1];
    if s.enabled then Updated(s.update, before, RunComponent(s, before)) else before
  }

  method RunScorers<C>(scorers: seq<Component<C>>, candidates: seq<C>) returns (scored: seq<C>)
    ensures scored == ScoredBy(scorers, candidates, |scorers|)
  {
    var current := new C[|candidates|](i requires 0 <= i < |candidates| => candidates[i]);
    assert current[..] == candidates;
    for n := 0 to |scorers|
      invariant current[..] == ScoredBy(scorers, candidates, n)
    {
      if scorers[n].enabled {
        UpdateAll(scorers[n].update, current, RunComponent(scorers[n], current[..]));
      }
    }
    scored := current[..];
  }

  /** What the n-th hydrator does to candidate `i`: if it is enabled, gave one result for
      each of the candidates as they came in, and a good one for this, the candidate
      takes that up; otherwise it stays as the hydrators before left it. */
  lemma HydratorUpdatesEach<C>(hydrators: seq<Component<C>>, candidates: seq<C>, n: nat, i: nat)
    requires n < |hydrators| && i < |candidates|
    ensures HydratedBy(hydrators, candidates, 0) == candidates
    ensures var h, results := hydrators[n], hydrators[n].run(candidates);
            HydratedBy(hydrators, candidates, n + 1)[i] ==
            if h.enabled && |results| == |candidates| && results[i].Ok?
            then h.update(HydratedBy(hydrators, candidates, n)[i], results[i].value)
            else HydratedBy(hydrators, candidates, n)[i]
  {
  }

  /** Likewise for a scorer, which is given what the scorers before it left. */
  lemma ScorerUpdatesEach<C>(scorers: seq<Component<C>>, candidates: seq<C>, n: nat, i: nat)
    requires n < |scorers| && i < |candidates|
    ensures ScoredBy(scorers, candidates, 0) == candidates
    ensures var s, before := scorers[n], ScoredBy(scorers, candidates, n);
            var results := s.run(before);
            ScoredBy(scorers, candidates, n + 1)[i] ==
            if s.enabled && |results| == |before| && results[i].Ok? then s.update(before[i], results[i].value)
            else before[i]
  {
  }

  /** Something that no component changes in a candidate, like its identity. */
  ghost predicate Keeps<C(!new), T>(components: seq<Component<C>>, f: C -> T) {
    forall k, c, h :: 0 <= k < |components| ==> f(components[k].update(c, h)) == f(c)
  }

  ghost predicate SameUnder<C, T>(f: C -> T, a: seq<C>, b: seq<C>) {
    |a| == |b| && forall i :: 0 <= i < |a| ==> f(a[i]) == f(b[i])
  }

  lemma {:induction false} HydrationKeeps<C(!new), T>(hydrators: seq<Component<C>>, candidates: seq<C>, n: nat,
                                                      f: C -> T)
    requires n <= |hydrators| && Keeps(hydrators, f)
    ensures SameUnder(f, HydratedBy(hydrators, candidates, n), candidates)
  {
    if n > 0 {
      HydrationKeeps(hydrators, candidates, n - 1, f);
    }
  }

  lemma {:induction false} ScoringKeeps<C(!new), T>(scorers: seq<Component<C>>, candidates: seq<C>, n: nat, f: C -> T)
    requires n <= |scorers| && Keeps(scorers, f)
    ensures SameUnder(f, ScoredBy(scorers, candidates, n), candidates)
  {
    if n > 0 {
      ScoringKeeps(scorers, candidates, n - 1, f);
    }
  }

  // ---- Filters ----

  /** The candidates on which the decision was `kept`, in order. */
  ghost function Part<C>(candidates: seq<C>, keep: (seq<C>, C) -> bool, kept: bool): seq<C> {
    if candidates == [] then [] else
    var n := |candidates| - 1;
    Part(candidates[..n], keep, kept) + if keep(candidates[..n], candidates[n]) == kept then [candidates[n]] else []
  }

  /** The places of the candidates on which the decision was `kept`. */
  ghost predicate PlacesOf<C>(candidates: seq<C>, keep: (seq<C>, C) -> bool, kept: bool, part: seq<C>,
                              places: seq<nat>)
  {
    && Embeds(part, candidates, places)
    && forall i: nat :: i in places <==> Decided(candidates, keep, kept, i)
  }

  lemma {:induction false} PartPlaces<C>(candidates: seq<C>, keep: (seq<C>, C) -> bool, kept: bool)
    returns (places: seq<nat>)
    ensures PlacesOf(candidates, keep, kept, Part(candidates, keep, kept), places)
  {
    if candidates == [] {
      places := [];
    } else {
      var n := |candidates| - 1;
      var init := PartPlaces(candidates[..n], keep, kept);
      EmbedsSnoc(Part(candidates[..n], keep, kept), candidates[..n], init, candidates[n]);
      assert candidates == candidates[..n] + [candidates[n]];
      places := if keep(candidates[..n], candidates[n]) == kept then init + [n] else init;
      forall i: nat ensures i in places <==> Decided(candidates, keep, kept, i) {
        DecidedBefore(candidates, keep, kept, i);
      }
    }
  }

  /** The decision on candidate `i` was `kept`. */
  ghost predicate Decided<C>(candidates: seq<C>, keep: (seq<C>, C) -> bool, kept: bool, i: nat) {
    i < |candidates| && keep(candidates[..i], candidates[i]) == kept
  }

  lemma DecidedBefore<C>(candidates: seq<C>, keep: (seq<C>, C) -> bool, kept: bool, i: nat)
    requires candidates != []
    ensures i < |candidates| - 1 ==>
              (Decided(candidates[..|candidates| - 1], keep, kept, i) <==> Decided(candidates, keep, kept, i))
  {
    if i < |candidates| - 1 {
      assert candidates[..|candidates| - 1][..i] == candidates[..i];
    }
  }

  lemma EmbedsSnoc<T>(a: seq<T>, b: seq<T>, places: seq<nat>, last: T)
    requires Embeds(a, b, places)
    ensures Embeds(a, b + [last], places)
    ensures Embeds(a + [last], b + [last], places + [|b|])
  {
  }

  /** Kept are the candidates at the places where the predicate, asked once for each with
      the earlier ones in mind, said so; removed are those at all other places. */
  method Partition<C>(candidates: seq<C>, keep: (seq<C>, C) -> bool)
    returns (kept: seq<C>, removed: seq<C>, ghost keptPlaces: seq<nat>, ghost removedPlaces: seq<nat>)
    ensures PlacesOf(candidates, keep, true, kept, keptPlaces)
    ensures PlacesOf(candidates, keep, false, removed, removedPlaces)
    ensures kept == Part(candidates, keep, true) && removed == Part(candidates, keep, false)
  {
    kept, removed := [], [];
    for i := 0 to |candidates|
      invariant kept == Part(candidates[..i], keep, true) && removed == Part(candidates[..i], keep, false)
    {
      assert candidates[..i + 1][..i] == candidates[..i];
      if keep(candidates[..i], candidates[i]) {
        kept := kept + [candidates[i]];
      } else {
        removed := removed + [candidates[i]];
      }
    }
    assert candidates[..|candidates|] == candidates;
    keptPlaces := PartPlaces(candidates, keep, true);
    removedPlaces := PartPlaces(candidates, keep, false);
  }

  /** What the first `n` filters keep and remove. */
  ghost function FilteredBy<C>(filters: seq<Filter<C>>, candidates: seq<C>, n: nat): (seq<C>, seq<C>)
    requires n <= |filters|
  {
    if n == 0 then (candidates, []) else
    var (kept, removed) := FilteredBy(filters, candidates, n - 1);
    var f := filters[n - 1];
    if f.enabled then (Part(kept, f.keep, true), removed + Part(kept, f.keep, false)) else (kept, removed)
  }

  method RunFilters<C>(filters: seq<Filter<C>>, candidates: seq<C>) returns (kept: seq<C>, removed: seq<C>)
    ensures (kept, removed) == FilteredBy(filters, candidates, |filters|)
  {
    kept, removed := candidates, [];
    for n := 0 to |filters|
      invariant (kept, removed) == FilteredBy(filters, candidates, n)
    {
      if filters[n].enabled {
        var some, more, _, _ := Partition(kept, filters[n].keep);
        kept := some;
        removed := removed + more;
      }
    }
  }

  // ---- Counting and order ----

  /** How many candidates have identity `x`. */
  ghost function Count<C, I>(id: C -> I, s: seq<C>, x: I): nat {
    if s == [] then 0 else Count(id, s[..|s| - 1], x) + if id(s[|s| - 1]) == x then 1 else 0
  }

  ghost function PlacesWith<C, I>(id: C -> I, s: seq<C>, x: I): set<nat> {
    set i: nat | i < |s| && id(s[i]) == x
  }

  lemma {:induction false} CountIs<C, I>(id: C -> I, s: seq<C>, x: I)
    ensures Count(id, s, x) == |PlacesWith(id, s, x)|
  {
    if s != [] {
      CountIs(id, s[..|s| - 1], x);
      PlacesWithGrow(id, s, x);
    }
  }

  lemma PlacesWithGrow<C, I>(id: C -> I, s: seq<C>, x: I)
    requires s != []
    ensures var n, before := |s| - 1, PlacesWith(id, s[..|s| - 1], x);
            |PlacesWith(id, s, x)| == |before| + if id(s[n]) == x then 1 else 0
  {
    var n, before := |s| - 1, PlacesWith(id, s[..|s| - 1], x);
    assert PlacesWith(id, s, x) == if id(s[n]) == x then before + {n} else before;
  }

  lemma {:induction false} CountConcat<C, I>(id: C -> I, a: seq<C>, b: seq<C>, x: I)
    ensures Count(id, a + b, x) == Count(id, a, x) + Count(id, b, x)
  {
    if b == [] {
      assert a + b == a;
    } else {
      var n := |b| - 1;
      assert (a + b)[..|a + b| - 1] == a + b[..n];
      CountConcat(id, a, b[..n], x);
    }
  }

  lemma {:induction false} CountSame<C, I>(id: C -> I, a: seq<C>, b: seq<C>, x: I)
    requires SameUnder(id, a, b)
    ensures Count(id, a, x) == Count(id, b, x)
  {
    if a != [] {
      CountSame(id, a[..|a| - 1], b[..|b| - 1], x);
    }
  }

  lemma {:induction false} CountPart<C, I>(id: C -> I, candidates: seq<C>, keep: (seq<C>, C) -> bool, x: I)
    ensures Count(id, candidates, x) ==
            Count(id, Part(candidates, keep, true), x) + Count(id, Part(candidates, keep, false), x)
  {
    if candidates != [] {
      var n := |candidates| - 1;
      CountPart(id, candidates[..n], keep, x);
      var kept := keep(candidates[..n], candidates[n]);
      CountConcat(id, Part(candidates[..n], keep, kept), [candidates[n]], x);
      assert Part(candidates, keep, !kept) == Part(candidates[..n], keep, !kept);
    }
  }

  lemma {:induction false} CountFiltered<C, I>(id: C -> I, filters: seq<Filter<C>>, candidates: seq<C>, n: nat, x: I)
    requires n <= |filters|
    ensures var (kept, removed) := FilteredBy(filters, candidates, n);
            Count(id, candidates, x) == Count(id, kept, x) + Count(id, removed, x)
  {
    if n > 0 {
      CountFiltered(id, filters, candidates, n - 1, x);
      var (kept, removed) := FilteredBy(filters, candidates, n - 1);
      CountPart(id, kept, filters[n - 1].keep, x);
      CountConcat(id, removed, Part(kept, filters[n - 1].keep, false), x);
    }
  }

  lemma EmbedsCompose<T>(a: seq<T>, b: seq<T>, c: seq<T>, inner: seq<nat>, outer: seq<nat>) returns (places: seq<nat>)
    requires Embeds(a, b, inner) && Embeds(b, c, outer)
    ensures Embeds(a, c, places) && |places| == |inner|
    ensures forall k :: 0 <= k < |places| ==> inner[k] < |outer| && places[k] == outer[inner[k]]
  {
    places := seq(|inner|, k requires 0 <= k < |inner| => outer[inner[k]]);
  }

  /** The candidates kept by the first `n` filters are in the order they came in, or were
      in after any `m` of the filters. */
  lemma {:induction false} FilteredEmbeds<C>(filters: seq<Filter<C>>, candidates: seq<C>, m: nat, n: nat)
    returns (places: seq<nat>)
    requires m <= n <= |filters|
    ensures Embeds(FilteredBy(filters, candidates, n).0, FilteredBy(filters, candidates, m).0, places)
    decreases n
  {
    if n == m {
      places := seq(|FilteredBy(filters, candidates, m).0|, i => i);
    } else {
      places := FilteredEmbeds(filters, candidates, m, n - 1);
      if filters[n - 1].enabled {
        var kept := FilteredBy(filters, candidates, n - 1).0;
        var inner := PartPlaces(kept, filters[n - 1].keep, true);
        places := EmbedsCompose(Part(kept, filters[n - 1].keep, true), kept, FilteredBy(filters, candidates, m).0,
                                inner,
                                places);
      }
    }
  }

  // ---- What filters decide ----

  /** What filter `m` is given: the candidates that the filters before it kept. */
  ghost function FilterInput<C>(filters: seq<Filter<C>>, candidates: seq<C>, m: nat): seq<C>
    requires m <= |filters|
  {
    FilteredBy(filters, candidates, m).0
  }

  /** The first filter is given all candidates; a disabled filter changes nothing. */
  lemma DisabledFilterChangesNothing<C>(filters: seq<Filter<C>>, candidates: seq<C>, m: nat)
    requires m < |filters| && !filters[m].enabled
    ensures FilteredBy(filters, candidates, m + 1) == FilteredBy(filters, candidates, m)
    ensures FilteredBy(filters, candidates, 0) == (candidates, [])
  {
  }

  /** Every candidate that passes the filters was accepted by each enabled one, at its
      place in what that filter was given. */
  lemma {:induction false} SurvivorsWereAccepted<C>(filters: seq<Filter<C>>, candidates: seq<C>, m: nat, n: nat)
    returns (places: seq<nat>)
    requires m < n <= |filters| && filters[m].enabled
    ensures var input := FilterInput(filters, candidates, m);
            && Embeds(FilteredBy(filters, candidates, n).0, input, places)
            && forall k :: 0 <= k < |places| ==> filters[m].keep(input[..places[k]], input[places[k]])
  {
    var input := FilterInput(filters, candidates, m);
    var later := FilteredEmbeds(filters, candidates, m + 1, n);
    var accepted := PartPlaces(input, filters[m].keep, true);
    places := EmbedsCompose(FilteredBy(filters, candidates, n).0, Part(input, filters[m].keep, true), input, later,
                            accepted);
    forall k | 0 <= k < |places| ensures filters[m].keep(input[..places[k]], input[places[k]]) {
      assert places[k] == accepted[later[k]] && accepted[later[k]] in accepted;
    }
  }

  /** A candidate was refused by an enabled filter, at its place in what the filter was given. */
  ghost predicate RefusedBy<C>(filters: seq<Filter<C>>, candidates: seq<C>, m: nat, q: nat, c: C) {
    && m < |filters| && filters[m].enabled
    && var input := FilterInput(filters, candidates, m);
       q < |input| && input[q] == c && !filters[m].keep(input[..q], input[q])
  }

  /** Every candidate removed was refused by one enabled filter. */
  lemma {:induction false} RemovedWasRefused<C>(filters: seq<Filter<C>>, candidates: seq<C>, n: nat, k: nat)
    returns (m: nat, q: nat)
    requires n <= |filters| && k < |FilteredBy(filters, candidates, n).1|
    ensures m < n && RefusedBy(filters, candidates, m, q, FilteredBy(filters, candidates, n).1[k])
    decreases n
  {
    var before := FilteredBy(filters, candidates, n - 1).1;
    if k < |before| {
      m, q := RemovedWasRefused(filters, candidates, n - 1, k);
    } else {
      m := n - 1;
      var input := FilterInput(filters, candidates, m);
      var places := PartPlaces(input, filters[m].keep, false);
      q := places[k - |before|];
      assert q in places;
    }
  }

  /** And whatever an enabled filter refuses is removed. */
  lemma {:induction false} RefusedIsRemoved<C>(filters: seq<Filter<C>>, candidates: seq<C>, n: nat, m: nat, q: nat,
                                               c: C)
    requires m < n <= |filters| && RefusedBy(filters, candidates, m, q, c)
    ensures c in FilteredBy(filters, candidates, n).1
    decreases n
  {
    if m < n - 1 {
      RefusedIsRemoved(filters, candidates, n - 1, m, q, c);
    } else {
      var input := FilterInput(filters, candidates, m);
      var places := PartPlaces(input, filters[m].keep, false);
      assert q in places;
      var k :| 0 <= k < |places| && places[k] == q;
      assert Part(input, filters[m].keep, false)[k] == c;
    }
  }

  lemma {:induction false} CountSorted<C, I>(id: C -> I, score: C -> real, input: seq<C>, output: seq<C>, x: I)
    requires IsStableSort(score, input, output)
    ensures Count(id, output, x) == Count(id, input, x)
  {
    if input == [] {
      var places := StableSortPlaces(score, input, output);
    } else {
      var n := |input| - 1;
      var init, places := SortExists(score, input[..n]);
      CountSorted(id, score, input[..n], init, x);
      StableSortSnoc(score, input[..n], input[n], init);
      assert input[..n] + [input[n]] == input;
      StableSortIsUnique(score, output, Insert(score, init, input[n]));
      var p := InsertSplits(score, init, input[n]);
      CountInsert(id, init, p, input[n], x);
      CountConcat(id, input[..n], [input[n]], x);
    }
  }

  lemma CountInsert<C, I>(id: C -> I, s: seq<C>, p: nat, c: C, x: I)
    requires p <= |s|
    ensures Count(id, s[..p] + [c] + s[p..], x) == Count(id, s, x) + Count(id, [c], x)
  {
    CountSplit(id, s, p, x);
    CountConcat(id, s[..p] + [c], s[p..], x);
    CountConcat(id, s[..p], [c], x);
  }

  lemma CountSplit<C, I>(id: C -> I, s: seq<C>, n: nat, x: I)
    requires n <= |s|
    ensures Count(id, s, x) == Count(id, s[..n], x) + Count(id, s[n..], x)
  {
    CountConcat(id, s[..n], s[n..], x);
    assert s[..n] + s[n..] == s;
  }

  // ---- The whole run ----

  /** The candidates of the first `n` sources that are enabled and answered. */
  ghost function Collected<C>(sources: seq<Source<C>>, n: nat): seq<C>
    requires n <= |sources|
  {
    if n == 0 then [] else
    Collected(sources, n - 1) +
    if sources[n - 1].enabled && sources[n - 1].answer.Ok? then sources[n - 1].answer.value else []
  }

  method FetchCandidates<C>(sources: seq<Source<C>>) returns (collected: seq<C>)
    ensures collected == Collected(sources, |sources|)
  {
    collected := [];
    for n := 0 to |sources|
      invariant collected == Collected(sources, n)
    {
      if sources[n].enabled && sources[n].answer.Ok? {
        collected := collected + sources[n].answer.value;
      }
    }
  }

  /** Each source that is enabled and answered has its candidates among those collected,
      together and in order. */
  lemma {:induction false} SourceIsCollected<C>(sources: seq<Source<C>>, n: nat, m: nat) returns (from: nat)
    requires m < n <= |sources| && sources[m].enabled && sources[m].answer.Ok?
    ensures from + |sources[m].answer.value| <= |Collected(sources, n)|
    ensures Collected(sources, n)[from..from + |sources[m].answer.value|] == sources[m].answer.value
    decreases n
  {
    var before, answer := Collected(sources, n - 1), sources[m].answer.value;
    if m == n - 1 {
      from := |before|;
    } else {
      from := SourceIsCollected(sources, n - 1, m);
      assert Collected(sources, n)[from..from + |answer|] == before[from..from + |answer|];
    }
  }

  /** And nothing else is collected. */
  lemma {:induction false} CollectedHasSource<C>(sources: seq<Source<C>>, n: nat, i: nat) returns (m: nat, j: nat)
    requires n <= |sources| && i < |Collected(sources, n)|
    ensures m < n && sources[m].enabled && sources[m].answer.Ok? && j < |sources[m].answer.value|
    ensures Collected(sources, n)[i] == sources[m].answer.value[j]
    decreases n
  {
    var before := Collected(sources, n - 1);
    if i < |before| {
      m, j := CollectedHasSource(sources, n - 1, i);
    } else {
      m, j := n - 1, i - |before|;
    }
  }

  ghost function Fetched<C>(stages: Stages<C>): seq<C> {
    Collected(stages.sources, |stages.sources|)
  }

  ghost function Retrieved<C>(stages: Stages<C>): seq<C> {
    HydratedBy(stages.hydrators, Fetched(stages), |stages.hydrators|)
  }

  /** What the first filters keep and remove. */
  ghost function FirstFiltered<C>(stages: Stages<C>): (seq<C>, seq<C>) {
    FilteredBy(stages.filters, Retrieved(stages), |stages.filters|)
  }

  /** The candidates that reach the selector. */
  ghost function Scored<C>(stages: Stages<C>): seq<C> {
    ScoredBy(stages.scorers, FirstFiltered(stages).0, |stages.scorers|)
  }

  ghost predicate Ranked<C>(selector: Selector<C>, scored: seq<C>, ranked: seq<C>) {
    if selector.enabled then IsStableSort(selector.score, scored, ranked) else ranked == scored
  }

  /** How many of `n` candidates the selector lets through. */
  function Limit<C>(selector: Selector<C>, n: nat): (r: nat)
    ensures r <= n
    ensures r < n ==> selector.enabled && selector.size == Some(r)
    ensures selector.enabled && selector.size.Some? ==> r <= selector.size.value
  {
    if selector.enabled && selector.size.Some? then Min(selector.size.value, n) else n
  }

  /** What the post-selection filters keep and remove. */
  ghost function PostFiltered<C>(stages: Stages<C>, chosen: seq<C>): (seq<C>, seq<C>) {
    FilteredBy(stages.postFilters, HydratedBy(stages.postHydrators, chosen, |stages.postHydrators|),
               |stages.postFilters|)
  }

  /** The outcome of a run in which the selector ranked the candidates so. */
  ghost function Outcome<C>(stages: Stages<C>, ranked: seq<C>): (r: PipelineResult<C>)
    ensures |r.selected| <= stages.resultSize
  {
    var limit := Limit(stages.selector, |ranked|);
    var (final, removed) := PostFiltered(stages, ranked[..limit]);
    var size := Min(stages.resultSize, |final|);
    PipelineResult(Retrieved(stages), FirstFiltered(stages).1 + removed, final[..size], ranked[limit..] + final[size..])
  }

  method SelectStage<C>(selector: Selector<C>, candidates: seq<C>)
    returns (selected: seq<C>, nonSelected: seq<C>)
    ensures Ranked(selector, candidates, selected + nonSelected)
    ensures |selected| == Limit(selector, |selected + nonSelected|)
  {
    if selector.enabled {
      var sorted := Sort(selector.score, candidates);
      var limit := if selector.size.Some? then Min(selector.size.value, |sorted|) else |sorted|;
      selected, nonSelected := sorted[..limit], sorted[limit..];
      assert selected + nonSelected == sorted;
    } else {
      selected, nonSelected := candidates, [];
      assert selected + nonSelected == candidates;
    }
  }

  method ExecuteStages<C>(stages: Stages<C>) returns (r: PipelineResult<C>, ghost ranked: seq<C>)
    ensures Ranked(stages.selector, Scored(stages), ranked)
    ensures r == Outcome(stages, ranked)
  {
    var candidates := FetchCandidates(stages.sources);
    var hydrated := RunHydrators(stages.hydrators, candidates);
    var kept, filtered := RunFilters(stages.filters, hydrated);
    var scored := RunScorers(stages.scorers, kept);
    var selected, nonSelected := SelectStage(stages.selector, scored);
    ranked := selected + nonSelected;
    assert ranked[..|selected|] == selected && ranked[|selected|..] == nonSelected;
    var postHydrated := RunHydrators(stages.postHydrators, selected);
    var final, postFiltered := RunFilters(stages.postFilters, postHydrated);
    var size := Min(stages.resultSize, |final|);
    r := PipelineResult(hydrated, filtered + postFiltered, final[..size], nonSelected + final[size..]);
  }

  /** No component changes the identity of a candidate. */
  ghost predicate KeepsIdentity<C(!new), I>(stages: Stages<C>, id: C -> I) {
    Keeps(stages.hydrators, id) && Keeps(stages.scorers, id) && Keeps(stages.postHydrators, id)
  }

  /** No candidate is lost, made up or repeated: each identity that was fetched
      is retrieved as often, and comes out as often, filtered, selected or not selected. */
  lemma Conservation<C(!new), I>(stages: Stages<C>, ranked: seq<C>, id: C -> I, x: I)
    requires Ranked(stages.selector, Scored(stages), ranked) && KeepsIdentity(stages, id)
    ensures var r := Outcome(stages, ranked);
            Count(id, Fetched(stages), x) == Count(id, r.retrieved, x) ==
            Count(id, r.filtered, x) + Count(id, r.selected, x) + Count(id, r.nonSelected, x)
  {
    var r := Outcome(stages, ranked);
    var retrieved, scored := Retrieved(stages), Scored(stages);
    HydrationKeeps(stages.hydrators, Fetched(stages), |stages.hydrators|, id);
    CountSame(id, retrieved, Fetched(stages), x);
    var (kept, removed) := FirstFiltered(stages);
    CountFiltered(id, stages.filters, retrieved, |stages.filters|, x);
    ScoringKeeps(stages.scorers, kept, |stages.scorers|, id);
    CountSame(id, scored, kept, x);
    if stages.selector.enabled {
      CountSorted(id, stages.selector.score, scored, ranked, x);
    }
    var limit := Limit(stages.selector, |ranked|);
    CountSplit(id, ranked, limit, x);
    CountPost(stages, ranked[..limit], id, x);
    var (final, removed2) := PostFiltered(stages, ranked[..limit]);
    var size := Min(stages.resultSize, |final|);
    CountSplit(id, final, size, x);
    CountConcat(id, removed, removed2, x);
    CountConcat(id, ranked[limit..], final[size..], x);
  }

  lemma CountPost<C(!new), I>(stages: Stages<C>, chosen: seq<C>, id: C -> I, x: I)
    requires Keeps(stages.postHydrators, id)
    ensures var (final, removed) := PostFiltered(stages, chosen);
            Count(id, chosen, x) == Count(id, final, x) + Count(id, removed, x)
  {
    var hydrated := HydratedBy(stages.postHydrators, chosen, |stages.postHydrators|);
    HydrationKeeps(stages.postHydrators, chosen, |stages.postHydrators|, id);
    CountSame(id, hydrated, chosen, x);
    CountFiltered(id, stages.postFilters, hydrated, |stages.postFilters|, x);
  }

  /** What reaches the scorers was accepted by every enabled filter, and what is selected
      by every enabled post-selection filter, at its place in what the filter was given. */
  lemma FiltersDecide<C>(stages: Stages<C>, ranked: seq<C>, m: nat) returns (places: seq<nat>, postPlaces: seq<nat>)
    ensures m < |stages.filters| && stages.filters[m].enabled ==>
              var input := FilterInput(stages.filters, Retrieved(stages), m);
              && Embeds(FirstFiltered(stages).0, input, places)
              && forall k :: 0 <= k < |places| ==> stages.filters[m].keep(input[..places[k]], input[places[k]])
    ensures m < |stages.postFilters| && stages.postFilters[m].enabled ==>
              var input := FilterInput(stages.postFilters, PostHydrated(stages, ranked), m);
              && Embeds(Outcome(stages, ranked).selected, input, postPlaces)
              && forall k :: 0 <= k < |postPlaces| ==>
                   stages.postFilters[m].keep(input[..postPlaces[k]], input[postPlaces[k]])
  {
    places, postPlaces := [], [];
    if m < |stages.filters| && stages.filters[m].enabled {
      places := SurvivorsWereAccepted(stages.filters, Retrieved(stages), m, |stages.filters|);
    }
    if m < |stages.postFilters| && stages.postFilters[m].enabled {
      var all := SurvivorsWereAccepted(stages.postFilters, PostHydrated(stages, ranked), m, |stages.postFilters|);
      postPlaces := all[..|Outcome(stages, ranked).selected|];
    }
  }

  /** The candidates given to the post-selection filters. */
  ghost function PostHydrated<C>(stages: Stages<C>, ranked: seq<C>): seq<C> {
    HydratedBy(stages.postHydrators, ranked[..Limit(stages.selector, |ranked|)], |stages.postHydrators|)
  }

  /** Every candidate reported as filtered was refused by an enabled filter, before or
      after selection. */
  lemma FilteredWereRefused<C>(stages: Stages<C>, ranked: seq<C>, k: nat) returns (m: nat, q: nat)
    requires k < |Outcome(stages, ranked).filtered|
    ensures var c := Outcome(stages, ranked).filtered[k];
            || RefusedBy(stages.filters, Retrieved(stages), m, q, c)
            || RefusedBy(stages.postFilters, PostHydrated(stages, ranked), m, q, c)
  {
    var first := FirstFiltered(stages).1;
    if k < |first| {
      m, q := RemovedWasRefused(stages.filters, Retrieved(stages), |stages.filters|, k);
    } else {
      m, q := RemovedWasRefused(stages.postFilters, PostHydrated(stages, ranked), |stages.postFilters|, k - |first|);
    }
  }

  /** Nothing is held back: the selector passes on as many as its size lets it, and a
      result that is not full has all of those that the post-selection filters kept. */
  lemma NothingIsHeldBack<C>(stages: Stages<C>, ranked: seq<C>)
    requires Ranked(stages.selector, Scored(stages), ranked)
    ensures |ranked| == |Scored(stages)| == |FirstFiltered(stages).0|
    ensures var r, limit := Outcome(stages, ranked), Limit(stages.selector, |ranked|);
            && (limit < |ranked| ==> stages.selector.enabled && stages.selector.size == Some(limit))
            && (|r.selected| < stages.resultSize ==>
                  r.selected == PostFiltered(stages, ranked[..limit]).0 && r.nonSelected == ranked[limit..])
  {
    if stages.selector.enabled {
      var places := StableSortPlaces(stages.selector.score, Scored(stages), ranked);
    }
    var limit := Limit(stages.selector, |ranked|);
    var final := PostFiltered(stages, ranked[..limit]).0;
    assert final[..|final|] == final && ranked[limit..] + final[|final|..] == ranked[limit..];
  }

  /** Each of `selected` has the identity of the candidate at its place in `from`;
      higher scores come first, and equal scores stay in the order of `from`. */
  ghost predicate InOrder<C, I>(score: C -> real, id: C -> I, from: seq<C>, selected: seq<C>, places: seq<nat>) {
    && |places| == |selected|
    && (forall k :: 0 <= k < |selected| ==> places[k] < |from| && id(from[places[k]]) == id(selected[k]))
    && (forall j, k :: 0 <= j < k < |selected| ==> Before(score, selected[j], places[j], selected[k], places[k]))
  }

  ghost predicate NoneOutscores<C>(score: C -> real, others: seq<C>, selected: seq<C>) {
    forall i, k :: 0 <= i < |others| && 0 <= k < |selected| ==> score(others[i]) <= score(selected[k])
  }

  /** Where the candidates that pass the post-selection filters stood in the ranking,
      and that they still have there what the post-selection hydrators keep. */
  ghost predicate PostPlaced<C, T>(f: C -> T, chosen: seq<C>, final: seq<C>, places: seq<nat>) {
    && |places| == |final|
    && (forall k :: 0 <= k < |final| ==> places[k] < |chosen| && f(chosen[places[k]]) == f(final[k]))
    && (forall j, k :: 0 <= j < k < |final| ==> places[j] < places[k])
  }

  lemma PostPlaces<C(!new), T>(stages: Stages<C>, chosen: seq<C>, f: C -> T) returns (places: seq<nat>)
    requires Keeps(stages.postHydrators, f)
    ensures PostPlaced(f, chosen, PostFiltered(stages, chosen).0, places)
  {
    var n := |stages.postHydrators|;
    places := FilteredEmbeds(stages.postFilters, HydratedBy(stages.postHydrators, chosen, n), 0, |stages.postFilters|);
    HydrationKeeps(stages.postHydrators, chosen, n, f);
  }

  /** The ranking's order is the order of what passes the post-selection filters. */
  lemma FinalBefore<C>(score: C -> real, input: seq<C>, ranked: seq<C>, outer: seq<nat>, final: seq<C>, inner: seq<nat>)
    requires Placed(score, input, ranked, outer) && PostPlaced(score, ranked, final, inner)
    ensures forall j, k :: 0 <= j < k < |final| ==> Before(score, final[j], outer[inner[j]], final[k], outer[inner[k]])
  {
    forall j, k | 0 <= j < k < |final|
      ensures Before(score, final[j], outer[inner[j]], final[k], outer[inner[k]])
    {
      assert Before(score, ranked[inner[j]], outer[inner[j]], ranked[inner[k]], outer[inner[k]]);
    }
  }

  lemma TailOutscored<C>(score: C -> real, ranked: seq<C>, limit: nat, final: seq<C>, inner: seq<nat>, size: nat)
    requires Sorted(score, ranked) && limit <= |ranked| && size <= |final|
    requires PostPlaced(score, ranked[..limit], final, inner)
    ensures NoneOutscores(score, ranked[limit..] + final[size..], final[..size])
  {
    var others := ranked[limit..] + final[size..];
    forall i, k | 0 <= i < |others| && 0 <= k < size ensures score(others[i]) <= score(final[k]) {
      if i < |ranked| - limit {
        assert others[i] == ranked[limit + i];
      } else {
        assert others[i] == final[size + (i - (|ranked| - limit))];
      }
    }
  }

  /** With the selector enabled and post-selection hydration that keeps scores and
      identities, the selected candidates are in score order with ties in the
      order they reached the selector, and nothing left unselected, by the
      selector or by the final truncation, outscores a selected candidate. */
  lemma SelectedInOrder<C(!new), I>(stages: Stages<C>, ranked: seq<C>, id: C -> I) returns (places: seq<nat>)
    requires stages.selector.enabled && Ranked(stages.selector, Scored(stages), ranked)
    requires Keeps(stages.postHydrators, stages.selector.score) && Keeps(stages.postHydrators, id)
    ensures var r := Outcome(stages, ranked);
            && InOrder(stages.selector.score, id, Scored(stages), r.selected, places)
            && NoneOutscores(stages.selector.score, r.nonSelected, r.selected)
  {
    var score := stages.selector.score;
    var scoreAndId := c => (score(c), id(c));
    var limit := Limit(stages.selector, |ranked|);
    var chosen := ranked[..limit];
    var final := PostFiltered(stages, chosen).0;
    var inner := PostPlaces(stages, chosen, scoreAndId);
    var outer := StableSortPlaces(score, Scored(stages), ranked);
    var size := Min(stages.resultSize, |final|);
    places := seq(size, k requires 0 <= k < size => outer[inner[k]]);
    TailOutscored(score, ranked, limit, final, inner, size);
    FinalBefore(score, Scored(stages), ranked, outer, final, inner);
  }

  /** The same with the order in which the sources gave the candidates. */
  lemma TiesInFetchOrder<C(!new), I>(stages: Stages<C>, ranked: seq<C>, id: C -> I) returns (places: seq<nat>)
    requires stages.selector.enabled && Ranked(stages.selector, Scored(stages), ranked)
    requires Keeps(stages.postHydrators, stages.selector.score) && KeepsIdentity(stages, id)
    ensures InOrder(stages.selector.score, id, Fetched(stages), Outcome(stages, ranked).selected, places)
  {
    var inner := SelectedInOrder(stages, ranked, id);
    var outer := FilteredEmbeds(stages.filters, Retrieved(stages), 0, |stages.filters|);
    HydrationKeeps(stages.hydrators, Fetched(stages), |stages.hydrators|, id);
    ScoringKeeps(stages.scorers, FirstFiltered(stages).0, |stages.scorers|, id);
    places := seq(|inner|, k requires 0 <= k < |inner| => outer[inner[k]]);
  }

  /** With the selector disabled, the selected candidates keep the order of the sources. */
  lemma UnrankedInFetchOrder<C(!new), I>(stages: Stages<C>, id: C -> I) returns (places: seq<nat>)
    requires !stages.selector.enabled && KeepsIdentity(stages, id)
    ensures var selected := Outcome(stages, Scored(stages)).selected;
            && |places| == |selected|
            && (forall k :: 0 <= k < |selected| ==>
                  places[k] < |Fetched(stages)| && id(Fetched(stages)[places[k]]) == id(selected[k]))
            && (forall j, k :: 0 <= j < k < |selected| ==> places[j] < places[k])
  {
    var scored := Scored(stages);
    assert scored[..|scored|] == scored;
    var inner := PostPlaces(stages, scored, id);
    var outer := FilteredEmbeds(stages.filters, Retrieved(stages), 0, |stages.filters|);
    HydrationKeeps(stages.hydrators, Fetched(stages), |stages.hydrators|, id);
    ScoringKeeps(stages.scorers, FirstFiltered(stages).0, |stages.scorers|, id);
    var size := |Outcome(stages, scored).selected|;
    places := seq(size, k requires 0 <= k < size => outer[inner[k]]);
  }
}
