/** The cached hydrator: answers candidates from a cache store where it can,
    asks the client for the rest in one call, and stores what the client gave.
    Other tasks share the store: before each turn of a call they may have added or
    replaced any entry, and any entry may have been evicted. */
module CachedHydrator {
  import opened Basics

  type Hydration<C> = Result<C, string>

  /** What a concrete hydrator supplies. */
  datatype Hooks<!Q, !C, !K, !V> = Hooks(
    alreadyHydrated: C -> bool,
    keyFor: (Q, C) -> K,
    cacheValue: C -> V,
    fromCache: V -> C,
    client: (Q, seq<C>) -> seq<Hydration<C>>,
    update: (C, C) -> C)

  // ---- Applying hydrations ----

  function Apply<C>(update: (C, C) -> C, candidate: C, hydration: Hydration<C>): C {
    if hydration.Ok? then update(candidate, hydration.value) else candidate
  }

  ghost function Updated<C>(update: (C, C) -> C, candidates: seq<C>, hydrations: seq<Hydration<C>>): (r: seq<C>)
    ensures |r| == |candidates|
    ensures forall i :: 0 <= i < |r| ==>
              r[i] == if i < |hydrations| then Apply(update, candidates[i], hydrations[i]) else candidates[i]
  {
    seq(|candidates|, i requires 0 <= i < |candidates| =>
          if i < |hydrations| then Apply(update, candidates[i], hydrations[i]) else candidates[i])
  }

  /** Updates candidates in place by the hydrations of their own positions. */
  method UpdateAll<C>(update: (C, C) -> C, candidates: array<C>, hydrations: seq<Hydration<C>>)
    modifies candidates
    ensures candidates[..] == Updated(update, old(candidates[..]), hydrations)
  {
    for i := 0 to Min(candidates.Length, |hydrations|)
      invariant forall k :: 0 <= k < candidates.Length ==>
                  candidates[k] == if k < i then Apply(update, old(candidates[k]), hydrations[k])
                    else old(candidates[k])
    {
      if hydrations[i].Ok? {
        candidates[i] := update(candidates[i], hydrations[i].value);
      }
    }
  }

  // ---- One call ----

  function Select<C>(candidates: seq<C>, indices: seq<nat>): (r: seq<C>)
    requires forall k :: 0 <= k < |indices| ==> indices[k] < |candidates|
    ensures |r| == |indices| && forall k :: 0 <= k < |indices| ==> r[k] == candidates[indices[k]]
  {
    seq(|indices|, k requires 0 <= k < |indices| => candidates[indices[k]])
  }

  /** What other tasks make of the store before a turn of a call. */
  type Meanwhile<!K, !V> = (nat, map<K, V>) -> map<K, V>

  /** The store with the client's good answers put in under their keys, one a turn
      from turn `first` on. */
  ghost function Inserted<C, K, V>(meanwhile: Meanwhile<K, V>, first: nat, store: map<K, V>, cacheValue: C -> V,
                                   keys: seq<K>, answers: seq<Hydration<C>>): map<K, V>
    requires |keys| == |answers|
  {
    if keys == [] then store else
    var n := |keys| - 1;
    var seen := meanwhile(first + n, Inserted(meanwhile, first, store, cacheValue, keys[..n], answers[..n]));
    if answers[n].Ok? then seen[keys[n] := cacheValue(answers[n].value)] else seen
  }

  /** The store as candidate `i` is looked up. */
  ghost function Seen<K, V>(meanwhile: Meanwhile<K, V>, before: map<K, V>, i: nat): map<K, V> {
    Turned(meanwhile, 0, before, i + 1)
  }

  /** A candidate that must be asked of the client. */
  ghost predicate MustAsk<Q, C, K, V>(hooks: Hooks<Q, C, K, V>, store: map<K, V>, query: Q, candidate: C) {
    !hooks.alreadyHydrated(candidate) && hooks.keyFor(query, candidate) !in store
  }

  /** Index `i` was answered without the client: from its own values, or from
      the value that the store had for its key. */
  ghost predicate FromStore<Q, C, K, V>(hooks: Hooks<Q, C, K, V>, store: map<K, V>, query: Q, candidate: C,
                                        hydration: Hydration<C>)
  {
    if hooks.alreadyHydrated(candidate) then
      hydration == Ok(hooks.fromCache(hooks.cacheValue(candidate)))
    else
      var key := hooks.keyFor(query, candidate);
      key in store && hydration == Ok(hooks.fromCache(store[key]))
  }

  /** A strictly increasing list of candidate indices. */
  ghost predicate Indices(indices: seq<nat>, n: nat) {
    && (forall k :: 0 <= k < |indices| ==> indices[k] < n)
    && (forall j, k :: 0 <= j < k < |indices| ==> indices[j] < indices[k])
  }

  ghost function KeysOf<Q, C, K, V>(hooks: Hooks<Q, C, K, V>, query: Q, candidates: seq<C>): seq<K> {
    seq(|candidates|, k requires 0 <= k < |candidates| => hooks.keyFor(query, candidates[k]))
  }

  /** The outcome of a call: the candidates at `missing`, and no others, had to be
      asked of the client; every position has its own answer, from the client or
      from the store as it was at its turn; and the client's good answers are
      stored. A client that answers with the wrong number of results fails every
      candidate and stores nothing. */
  ghost predicate Hydrated<Q, C, K, V>(hooks: Hooks<Q, C, K, V>, call: Call<Q, C, K, V>, before: map<K, V>,
                                       missing: seq<nat>, hydrations: seq<Hydration<C>>, store: map<K, V>)
  {
    var Call(query, candidates, meanwhile) := call;
    var n := |candidates|;
    && |hydrations| == n
    && Indices(missing, n)
    && (forall i :: 0 <= i < n ==> (i in missing <==> MustAsk(hooks, Seen(meanwhile, before, i), query, candidates[i])))
    && var asked := Select(candidates, missing);
       var answers := if missing == [] then [] else hooks.client(query, asked);
       var after := Turned(meanwhile, 0, before, n);
       if |answers| == |missing| then
         && (forall k :: 0 <= k < |missing| ==> hydrations[missing[k]] == answers[k])
         && (forall i :: 0 <= i < n && i !in missing ==>
               FromStore(hooks, Seen(meanwhile, before, i), query, candidates[i], hydrations[i]))
         && store == Inserted(meanwhile, n, after, hooks.cacheValue, KeysOf(hooks, query, asked), answers)
       else
         && (forall i :: 0 <= i < n ==> hydrations[i].Err?)
         && store == after
  }

  datatype Call<!Q, !C, !K, !V> = Call(query: Q, candidates: seq<C>, meanwhile: Meanwhile<K, V>)

  /** What the pass over the candidates has found: `slots[j]` is the answer for
      candidate `j` so far, and `missing` the candidates passed without one. */
  ghost predicate Gathered<Q, C, K, V>(hooks: Hooks<Q, C, K, V>, call: Call<Q, C, K, V>, before: map<K, V>,
                                       slots: seq<Option<Hydration<C>>>, missing: seq<nat>, i: nat)
  {
    && |slots| == |call.candidates| && i <= |call.candidates|
    && Indices(missing, i)
    && (forall j :: 0 <= j < i ==> (slots[j].None? <==> j in missing))
    && (forall j :: i <= j < |slots| ==> slots[j].None?)
    && (forall j :: 0 <= j < i ==>
          if slots[j].Some?
          then FromStore(hooks, Seen(call.meanwhile, before, j), call.query, call.candidates[j], slots[j].value)
          else MustAsk(hooks, Seen(call.meanwhile, before, j), call.query, call.candidates[j]))
  }

  /** The list kept by the code: empty as long as every candidate was missing. */
  ghost predicate Kept<C>(results: seq<Option<Hydration<C>>>, slots: seq<Option<Hydration<C>>>, missing: seq<nat>,
                          i: nat)
  {
    if results == [] then |missing| == i && forall j :: 0 <= j < |slots| ==> slots[j].None? else results == slots
  }

  lemma GatherHit<Q, C, K, V>(hooks: Hooks<Q, C, K, V>, call: Call<Q, C, K, V>, before: map<K, V>,
                              slots: seq<Option<Hydration<C>>>, missing: seq<nat>, i: nat, hydration: Hydration<C>)
    requires Gathered(hooks, call, before, slots, missing, i) && i < |call.candidates|
    requires FromStore(hooks, Seen(call.meanwhile, before, i), call.query, call.candidates[i], hydration)
    ensures Gathered(hooks, call, before, slots[i := Some(hydration)], missing, i + 1)
  {
    assert i !in missing;
  }

  lemma GatherMiss<Q, C, K, V>(hooks: Hooks<Q, C, K, V>, call: Call<Q, C, K, V>, before: map<K, V>,
                               slots: seq<Option<Hydration<C>>>, missing: seq<nat>, i: nat)
    requires Gathered(hooks, call, before, slots, missing, i) && i < |call.candidates|
    requires MustAsk(hooks, Seen(call.meanwhile, before, i), call.query, call.candidates[i])
    ensures Gathered(hooks, call, before, slots, missing + [i], i + 1)
  {
  }

  /** The first answer makes the list, one slot per candidate. */
  method Put<C>(results: seq<Option<Hydration<C>>>, n: nat, i: nat, hydration: Hydration<C>,
                ghost slots: seq<Option<Hydration<C>>>, ghost missing: seq<nat>)
    returns (results': seq<Option<Hydration<C>>>)
    requires i < n == |slots| && Kept(results, slots, missing, i)
    ensures results' == slots[i := Some(hydration)] && results' != []
  {
    results' := results;
    if results' == [] {
      results' := seq(n, _ => None);
      assert results' == slots;
    }
    results' := results'[i := Some(hydration)];
  }

  class Cached<Q, C, K(==), V> {
    const hooks: Hooks<Q, C, K, V>
    var store: map<K, V>

    constructor (hooks: Hooks<Q, C, K, V>)
      ensures this.hooks == hooks && store == map[]
    {
      this.hooks := hooks;
      store := map[];
    }

    /** Answers each candidate from itself or the store, as far as possible.
        `results` stays empty until there is a first answer. */
    method Gather(call: Call<Q, C, K, V>)
      returns (results: seq<Option<Hydration<C>>>, missingKeys: seq<K>, missing: seq<nat>,
               ghost slots: seq<Option<Hydration<C>>>)
      modifies this`store
      ensures store == Turned(call.meanwhile, 0, old(store), |call.candidates|)
      ensures Gathered(hooks, call, old(store), slots, missing, |call.candidates|)
      ensures missingKeys == KeysOf(hooks, call.query, Select(call.candidates, missing))
      ensures Kept(results, slots, missing, |call.candidates|)
    {
      var Call(query, candidates, meanwhile) := call;
      results, missingKeys, missing := [], [], [];
      slots := seq(|candidates|, _ => None);
      for i := 0 to |candidates|
        invariant store == Turned(meanwhile, 0, old(store), i)
        invariant Gathered(hooks, call, old(store), slots, missing, i)
        invariant missingKeys == KeysOf(hooks, query, Select(candidates, missing))
        invariant Kept(results, slots, missing, i)
      {
        var candidate := candidates[i];
        store := meanwhile(i, store);
        assert store == Seen(meanwhile, old(store), i);
        if hooks.alreadyHydrated(candidate) {
          var own := Ok(hooks.fromCache(hooks.cacheValue(candidate)));
          GatherHit(hooks, call, old(store), slots, missing, i, own);
          results := Put(results, |candidates|, i, own, slots, missing);
          slots := results;
          continue;
        }
        var key := hooks.keyFor(query, candidate);
        if key in store {
          var cached := Ok(hooks.fromCache(store[key]));
          GatherHit(hooks, call, old(store), slots, missing, i, cached);
          results := Put(results, |candidates|, i, cached, slots, missing);
          slots := results;
        } else {
          GatherMiss(hooks, call, old(store), slots, missing, i);
          missingKeys := missingKeys + [key];
          missing := missing + [i];
        }
      }
    }

    /** Stores the client's good answers, in order, one a turn. */
    method StoreAnswers(keys: seq<K>, answers: seq<Hydration<C>>, meanwhile: Meanwhile<K, V>, first: nat)
      requires |keys| == |answers|
      modifies this`store
      ensures store == Inserted(meanwhile, first, old(store), hooks.cacheValue, keys, answers)
    {
      for k := 0 to |keys|
        invariant store == Inserted(meanwhile, first, old(store), hooks.cacheValue, keys[..k], answers[..k])
      {
        assert keys[..k + 1][..k] == keys[..k] && answers[..k + 1][..k] == answers[..k];
        store := meanwhile(first + k, store);
        if answers[k].Ok? {
          store := store[keys[k] := hooks.cacheValue(answers[k].value)];
        }
      }
      assert keys[..|keys|] == keys && answers[..|answers|] == answers;
    }

    /** Hydrates the candidates of one call; see `Hydrated`. The result is the same
        whether or not the path without any hit was taken, and the message for
        a missing result is never given. */
    method HydrateForStage(call: Call<Q, C, K, V>) returns (hydrations: seq<Hydration<C>>, missing: seq<nat>)
      modifies this`store
      ensures Hydrated(hooks, call, old(store), missing, hydrations, store)
    {
      var Call(query, candidates, meanwhile) := call;
      var results, missingKeys;
      ghost var slots;
      results, missingKeys, missing, slots := Gather(call);
      ghost var asked := Select(candidates, missing);
      if missing != [] {
        if results == [] {
          AllAreMissing(missing, |candidates|);
          assert asked == candidates;
        }
        var answers := hooks.client(query, if results == [] then candidates else Select(candidates, missing));
        if |answers| != |missing| {
          hydrations := seq(|candidates|, _ => Err("CachedHydrator length_mismatch"));
          return;
        }
        StoreAnswers(missingKeys, answers, meanwhile, |candidates|);
        if results == [] {
          hydrations := answers;
          return;
        }
        results := Scatter(results, missing, answers);
      }
      hydrations := Unwrap(results);
    }
  }

  /** The results of all slots; an empty one would give an error of its own. */
  method Unwrap<C>(results: seq<Option<Hydration<C>>>) returns (hydrations: seq<Hydration<C>>)
    ensures |hydrations| == |results|
    ensures forall j :: 0 <= j < |results| ==>
              hydrations[j] == if results[j].Some? then results[j].value
                else Err("Missing hydration result for candidate")
  {
    hydrations := [];
    for i := 0 to |results|
      invariant |hydrations| == i
      invariant forall j :: 0 <= j < i ==>
                  hydrations[j] == if results[j].Some? then results[j].value
                                   else Err("Missing hydration result for candidate")
    {
      hydrations := hydrations +
        [if results[i].Some? then results[i].value else Err("Missing hydration result for candidate")];
    }
  }

  lemma {:induction false} AllAreMissing(missing: seq<nat>, n: nat)
    requires Indices(missing, n) && |missing| == n
    ensures forall k :: 0 <= k < n ==> missing[k] == k
  {
    if n > 0 {
      var init := missing[..n - 1];
      assert forall k :: 0 <= k < n - 1 ==> init[k] == missing[k] < missing[n - 1] < n;
      AllAreMissing(init, n - 1);
      assert n > 1 ==> init[n - 2] == n - 2;
    }
  }

  /** Puts the client's answers into the slots of the candidates asked for. */
  method Scatter<C>(slots: seq<Option<Hydration<C>>>, missing: seq<nat>, answers: seq<Hydration<C>>)
    returns (results: seq<Option<Hydration<C>>>)
    requires Indices(missing, |slots|) && |answers| == |missing|
    ensures |results| == |slots|
    ensures forall k :: 0 <= k < |missing| ==> results[missing[k]] == Some(answers[k])
    ensures forall j :: 0 <= j < |slots| && j !in missing ==> results[j] == slots[j]
  {
    results := slots;
    for k := 0 to |missing|
      invariant |results| == |slots|
      invariant forall j :: 0 <= j < k ==> results[missing[j]] == Some(answers[j])
      invariant forall j :: 0 <= j < |slots| && j !in missing ==> results[j] == slots[j]
    {
      results := results[missing[k] := Some(answers[k])];
    }
  }

  /** With no other task about, the store gets the last good answer for each key, and
      keeps what it had for the others. */
  lemma {:induction false} GoodAnswersAreStored<C, K(!new), V(!new)>(
    meanwhile: Meanwhile<K, V>, first: nat, store: map<K, V>, cacheValue: C -> V, keys: seq<K>,
    answers: seq<Hydration<C>>, key: K)
    requires |keys| == |answers|
    requires forall turn, seen {:trigger meanwhile(turn, seen)} :: meanwhile(turn, seen) == seen
    ensures var after := Inserted(meanwhile, first, store, cacheValue, keys, answers);
            if exists k :: IsLastGood(keys, answers, key, k) then
              key in after &&
              forall k :: IsLastGood(keys, answers, key, k) ==> after[key] == cacheValue(answers[k].value)
            else (key in after <==> key in store) && (key in store ==> after[key] == store[key])
  {
    if keys != [] {
      var n := |keys| - 1;
      GoodAnswersAreStored(meanwhile, first, store, cacheValue, keys[..n], answers[..n], key);
      if answers[n].Ok? && keys[n] == key {
        assert IsLastGood(keys, answers, key, n);
      } else {
        assert forall k :: IsLastGood(keys, answers, key, k) <==> IsLastGood(keys[..n], answers[..n], key, k);
      }
    }
  }

  /** Answer `k` is the last good one for the key. */
  ghost predicate IsLastGood<C, K>(keys: seq<K>, answers: seq<Hydration<C>>, key: K, k: int)
    requires |keys| == |answers|
  {
    && 0 <= k < |keys| && keys[k] == key && answers[k].Ok?
    && forall j :: k < j < |keys| && keys[j] == key ==> answers[j].Err?
  }

  // ---- Cached hydration refines direct hydration ----

  /** The client answers each candidate by its cache key alone. */
  ghost predicate ClientByKey<Q(!new), C(!new), K, V>(hooks: Hooks<Q, C, K, V>, answer: K -> Hydration<C>) {
    forall query: Q, cs: seq<C> ::
      && |hooks.client(query, cs)| == |cs|
      && forall i :: 0 <= i < |cs| ==> hooks.client(query, cs)[i] == answer(hooks.keyFor(query, cs[i]))
  }

  /** Hydrating from the cached value updates a candidate as the original does. */
  ghost predicate CacheFaithful<Q, C(!new), K, V>(hooks: Hooks<Q, C, K, V>) {
    forall c: C, h: C :: hooks.update(c, hooks.fromCache(hooks.cacheValue(h))) == hooks.update(c, h)
  }

  /** Each stored value is that of the client's answer for its key. */
  ghost predicate StoreFaithful<Q, C, K, V>(hooks: Hooks<Q, C, K, V>, answer: K -> Hydration<C>, store: map<K, V>) {
    forall k :: k in store ==> answer(k).Ok? && store[k] == hooks.cacheValue(answer(k).value)
  }

  /** Other tasks keep the store faithful too. */
  ghost predicate OthersFaithful<Q, C, K(!new), V(!new)>(hooks: Hooks<Q, C, K, V>, answer: K -> Hydration<C>,
                                                         meanwhile: Meanwhile<K, V>)
  {
    forall turn, store {:trigger meanwhile(turn, store)} ::
      StoreFaithful(hooks, answer, store) ==> StoreFaithful(hooks, answer, meanwhile(turn, store))
  }

  lemma {:induction false} TurnedIsFaithful<Q, C, K(!new), V(!new)>(hooks: Hooks<Q, C, K, V>, answer: K -> Hydration<C>,
                                                        meanwhile: Meanwhile<K, V>, store: map<K, V>, n: nat)
    requires StoreFaithful(hooks, answer, store) && OthersFaithful(hooks, answer, meanwhile)
    ensures StoreFaithful(hooks, answer, Turned(meanwhile, 0, store, n))
  {
    if n > 0 {
      TurnedIsFaithful(hooks, answer, meanwhile, store, n - 1);
    }
  }

  lemma {:induction false} InsertedIsFaithful<Q, C, K(!new), V(!new)>(hooks: Hooks<Q, C, K, V>,
                                                                      answer: K -> Hydration<C>,
                                                          meanwhile: Meanwhile<K, V>, first: nat, store: map<K, V>,
                                                          keys: seq<K>, answers: seq<Hydration<C>>)
    requires StoreFaithful(hooks, answer, store) && OthersFaithful(hooks, answer, meanwhile) && |keys| == |answers|
    requires forall k :: 0 <= k < |keys| ==> answers[k] == answer(keys[k])
    ensures StoreFaithful(hooks, answer, Inserted(meanwhile, first, store, hooks.cacheValue, keys, answers))
  {
    if keys != [] {
      var n := |keys| - 1;
      InsertedIsFaithful(hooks, answer, meanwhile, first, store, keys[..n], answers[..n]);
    }
  }

  /** A call on a faithful store leaves it faithful, and updates every candidate
      not already hydrated exactly as the client's own answer would; one that is, by
      its own values. */
  lemma {:induction false} CachedRefinesDirect<Q(!new), C(!new), K(!new), V(!new)>(
    hooks: Hooks<Q, C, K, V>, answer: K -> Hydration<C>, call: Call<Q, C, K, V>, before: map<K, V>, missing: seq<nat>,
    hydrations: seq<Hydration<C>>, store: map<K, V>)
    requires ClientByKey(hooks, answer) && CacheFaithful(hooks)
    requires StoreFaithful(hooks, answer, before) && OthersFaithful(hooks, answer, call.meanwhile)
    requires Hydrated(hooks, call, before, missing, hydrations, store)
    ensures StoreFaithful(hooks, answer, store)
    ensures forall i :: 0 <= i < |call.candidates| && !hooks.alreadyHydrated(call.candidates[i]) ==>
              Apply(hooks.update, call.candidates[i], hydrations[i]) ==
              Apply(hooks.update, call.candidates[i], hooks.client(call.query, call.candidates)[i])
    ensures forall i :: 0 <= i < |call.candidates| && hooks.alreadyHydrated(call.candidates[i]) ==>
              Apply(hooks.update, call.candidates[i], hydrations[i]) ==
              hooks.update(call.candidates[i], call.candidates[i])
  {
    var Call(query, candidates, meanwhile) := call;
    var asked := Select(candidates, missing);
    var answers := if missing == [] then [] else hooks.client(query, asked);
    assert |hooks.client(query, asked)| == |asked|;
    TurnedIsFaithful(hooks, answer, meanwhile, before, |candidates|);
    InsertedIsFaithful(hooks, answer, meanwhile, |candidates|, Turned(meanwhile, 0, before, |candidates|),
                       KeysOf(hooks, query, asked), answers);
    forall i | 0 <= i < |candidates| && !hooks.alreadyHydrated(candidates[i])
      ensures Apply(hooks.update, candidates[i], hydrations[i]) ==
              Apply(hooks.update, candidates[i], hooks.client(query, candidates)[i])
    {
      var key := hooks.keyFor(query, candidates[i]);
      assert hooks.client(query, candidates)[i] == answer(key);
      if i in missing {
        var k :| 0 <= k < |missing| && missing[k] == i;
        assert asked[k] == candidates[i] && answers[k] == answer(key);
      } else {
        TurnedIsFaithful(hooks, answer, meanwhile, before, i + 1);
        assert FromStore(hooks, Seen(meanwhile, before, i), query, candidates[i], hydrations[i]);
      }
    }
  }

  /** What an uncached hydrator would make of the candidates. */
  ghost function Direct<Q, C, K, V>(hooks: Hooks<Q, C, K, V>, query: Q, candidates: seq<C>): seq<C> {
    Updated(hooks.update, candidates, hooks.client(query, candidates))
  }

  /** Over any sequence of calls, from an empty store, whatever is evicted and whatever
      faithful calls other tasks make meanwhile, every candidate not already
      hydrated comes out as it would uncached. */
  method HydrateAll<Q(!new), C(!new), K(==, !new), V(!new)>(hooks: Hooks<Q, C, K, V>, calls: seq<Call<Q, C, K, V>>,
                                                            ghost answer: K -> Hydration<C>)
    returns (outputs: seq<seq<C>>)
    requires ClientByKey(hooks, answer) && CacheFaithful(hooks)
    requires forall n :: 0 <= n < |calls| ==> OthersFaithful(hooks, answer, calls[n].meanwhile)
    ensures |outputs| == |calls|
    ensures forall n :: 0 <= n < |calls| ==>
              |outputs[n]| == |calls[n].candidates| == |Direct(hooks, calls[n].query, calls[n].candidates)|
    ensures forall n, i :: 0 <= n < |calls| && 0 <= i < |calls[n].candidates| &&
                           !hooks.alreadyHydrated(calls[n].candidates[i]) ==>
              outputs[n][i] == Direct(hooks, calls[n].query, calls[n].candidates)[i]
  {
    var cached := new Cached(hooks);
    outputs := [];
    for n := 0 to |calls|
      invariant cached.hooks == hooks && StoreFaithful(hooks, answer, cached.store)
      invariant |outputs| == n
      invariant forall m :: 0 <= m < n ==> |outputs[m]| == |calls[m].candidates|
      invariant forall m, i :: 0 <= m < n && 0 <= i < |calls[m].candidates| &&
                               !hooks.alreadyHydrated(calls[m].candidates[i]) ==>
                  outputs[m][i] == Direct(hooks, calls[m].query, calls[m].candidates)[i]
    {
      var call := calls[n];
      ghost var before := cached.store;
      var hydrations, missing := cached.HydrateForStage(call);
      CachedRefinesDirect(hooks, answer, call, before, missing, hydrations, cached.store);
      assert |hooks.client(call.query, call.candidates)| == |call.candidates|;
      var candidates := call.candidates;
      var updated := new C[|candidates|](i requires 0 <= i < |candidates| => candidates[i]);
      UpdateAll(hooks.update, updated, hydrations);
      outputs := outputs + [updated[..]];
    }
  }
}
