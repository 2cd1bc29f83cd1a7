/** Sorting candidates by score, highest first and stably, as the selector does. */
module StableSort {
  ghost predicate Sorted<C>(score: C -> real, s: seq<C>) {
    forall i, j :: 0 <= i < j < |s| ==> score(s[i]) >= score(s[j])
  }

  ghost function IfScore<C>(score: C -> real, c: C, x: real): seq<C> {
    if score(c) == x then [c] else []
  }

  /** The candidates of one score, in order. */
  ghost function WithScore<C>(score: C -> real, s: seq<C>, x: real): seq<C> {
    if s == [] then [] else WithScore(score, s[..|s| - 1], x) + IfScore(score, s[|s| - 1], x)
  }

  lemma WithScoreSnoc<C>(score: C -> real, s: seq<C>, c: C, x: real)
    ensures WithScore(score, s + [c], x) == WithScore(score, s, x) + IfScore(score, c, x)
  {
    assert (s + [c])[..|s|] == s;
  }

  /** Each score has the same candidates in the same order. */
  ghost predicate SameRuns<C>(score: C -> real, a: seq<C>, b: seq<C>) {
    forall x :: WithScore(score, a, x) == WithScore(score, b, x)
  }

  /** `output` is `input` in score order, with ties in input order. */
  ghost predicate IsStableSort<C>(score: C -> real, input: seq<C>, output: seq<C>) {
    Sorted(score, output) && SameRuns(score, output, input)
  }

  /** `c` goes after everything that scores at least as high. */
  function Insert<C>(score: C -> real, s: seq<C>, c: C): (r: seq<C>)
    ensures |r| == |s| + 1
  {
    if s == [] then [c] else
    var n := |s| - 1;
    if score(s[n]) >= score(c) then s + [c] else Insert(score, s[..n], c) + [s[n]]
  }

  lemma {:induction false} InsertSorted<C>(score: C -> real, s: seq<C>, c: C)
    requires Sorted(score, s)
    ensures Sorted(score, Insert(score, s, c))
    ensures forall x :: x in Insert(score, s, c) ==> x == c || x in s
  {
    if s != [] {
      var n := |s| - 1;
      if score(s[n]) < score(c) {
        InsertSorted(score, s[..n], c);
        var init := Insert(score, s[..n], c);
        forall i | 0 <= i < |init| ensures score(init[i]) >= score(s[n]) {
          assert init[i] in init;
        }
      }
    }
  }

  lemma {:induction false} InsertIsStable<C>(score: C -> real, s: seq<C>, c: C, x: real)
    ensures WithScore(score, Insert(score, s, c), x) == WithScore(score, s, x) + IfScore(score, c, x)
  {
    if s == [] {
      WithScoreSnoc(score, [], c, x);
      assert [] + [c] == [c];
    } else {
      var n := |s| - 1;
      if score(s[n]) >= score(c) {
        WithScoreSnoc(score, s, c, x);
      } else {
        InsertIsStable(score, s[..n], c, x);
        WithScoreSnoc(score, Insert(score, s[..n], c), s[n], x);
        var before, one, last := WithScore(score, s[..n], x), IfScore(score, c, x), IfScore(score, s[n], x);
        assert one == [] || last == [];
        assert before + one + last == before + last + one;
      }
    }
  }

  method Sort<C>(score: C -> real, candidates: seq<C>) returns (sorted: seq<C>)
    ensures IsStableSort(score, candidates, sorted)
  {
    sorted := [];
    for i := 0 to |candidates|
      invariant IsStableSort(score, candidates[..i], sorted)
    {
      assert candidates[..i + 1] == candidates[..i] + [candidates[i]];
      StableSortSnoc(score, candidates[..i], candidates[i], sorted);
      sorted := Insert(score, sorted, candidates[i]);
    }
    assert candidates[..|candidates|] == candidates;
  }

  lemma {:induction false} WithScoreMembers<C>(score: C -> real, s: seq<C>, x: real, c: C)
    ensures c in WithScore(score, s, x) <==> c in s && score(c) == x
  {
    if s != [] {
      WithScoreMembers(score, s[..|s| - 1], x, c);
      assert s == s[..|s| - 1] + [s[|s| - 1]];
    }
  }

  lemma LastWithScore<C>(score: C -> real, s: seq<C>)
    requires s != []
    ensures var last := s[|s| - 1];
            var same := WithScore(score, s, score(last));
            same != [] && same[|same| - 1] == last
  {
  }

  /** In score order, the last candidate has the lowest score. */
  lemma LastIsLowest<C>(score: C -> real, s: seq<C>, x: real)
    requires Sorted(score, s) && WithScore(score, s, x) != []
    ensures s != [] && score(s[|s| - 1]) <= x
  {
    var c := WithScore(score, s, x)[0];
    WithScoreMembers(score, s, x, c);
    assert c in WithScore(score, s, x);
    var i :| 0 <= i < |s| && s[i] == c;
  }

  /** Two sequences in the same stable order end in the same candidate. */
  lemma SameLast<C>(score: C -> real, a: seq<C>, b: seq<C>)
    requires SameOrder(score, a, b) && a != []
    ensures b != [] && a[|a| - 1] == b[|b| - 1]
  {
    LastWithScore(score, a);
    LastIsLowest(score, b, score(a[|a| - 1]));
    LastWithScore(score, b);
    LastIsLowest(score, a, score(b[|b| - 1]));
    assert score(a[|a| - 1]) == score(b[|b| - 1]);
  }

  lemma RunsDropLast<C>(score: C -> real, a: seq<C>, b: seq<C>, last: C)
    requires SameRuns(score, a + [last], b + [last])
    ensures SameRuns(score, a, b)
  {
    forall x ensures WithScore(score, a, x) == WithScore(score, b, x) {
      WithScoreSnoc(score, a, last, x);
      WithScoreSnoc(score, b, last, x);
      SamePrefix(WithScore(score, a, x), WithScore(score, b, x), IfScore(score, last, x));
    }
  }

  /** Both in score order, with the same candidates in the same order for each score. */
  ghost predicate SameOrder<C>(score: C -> real, a: seq<C>, b: seq<C>) {
    Sorted(score, a) && Sorted(score, b) && SameRuns(score, a, b)
  }

  lemma DropLast<C>(score: C -> real, a: seq<C>, b: seq<C>)
    requires SameOrder(score, a, b) && a != []
    ensures b != [] && a[|a| - 1] == b[|b| - 1] && SameOrder(score, a[..|a| - 1], b[..|b| - 1])
  {
    SameLast(score, a, b);
    var a', b', last := a[..|a| - 1], b[..|b| - 1], a[|a| - 1];
    assert a == a' + [last] && b == b' + [last];
    RunsDropLast(score, a', b', last);
  }

  /** A stable sort has one result: whatever algorithm is used, it is this one. */
  lemma {:induction false} StableSortIsUnique<C>(score: C -> real, a: seq<C>, b: seq<C>)
    requires SameOrder(score, a, b)
    ensures a == b
  {
    if a == [] {
      if b != [] {
        DropLast(score, b, a);
      }
    } else {
      DropLast(score, a, b);
      StableSortIsUnique(score, a[..|a| - 1], b[..|b| - 1]);
      assert a == a[..|a| - 1] + [a[|a| - 1]];
    }
  }

  lemma SamePrefix<C>(a: seq<C>, b: seq<C>, tail: seq<C>)
    requires a + tail == b + tail
    ensures a == b
  {
    assert (a + tail)[..|a|] == a && (b + tail)[..|b|] == b;
  }

  // ---- Where each candidate stood ----

  /** Of two candidates with their input positions, the first goes before the second. */
  ghost predicate Before<C>(score: C -> real, c: C, place: nat, d: C, other: nat) {
    score(c) > score(d) || (score(c) == score(d) && place < other)
  }

  /** Each of `output` stood at its place in `input`, at different places: higher
      scores come first, and equal scores stay in input order. */
  ghost predicate Placed<C>(score: C -> real, input: seq<C>, output: seq<C>, places: seq<nat>) {
    && |places| == |output|
    && (forall k :: 0 <= k < |output| ==> places[k] < |input| && input[places[k]] == output[k])
    && (forall j, k :: 0 <= j < k < |output| ==> Before(score, output[j], places[j], output[k], places[k]))
  }

  lemma {:induction false} InsertSplits<C>(score: C -> real, s: seq<C>, c: C) returns (p: nat)
    requires Sorted(score, s)
    ensures p <= |s| && Insert(score, s, c) == s[..p] + [c] + s[p..]
    ensures forall k :: 0 <= k < |s| ==> (k < p <==> score(s[k]) >= score(c))
  {
    var n := |s| - 1;
    if s == [] || score(s[n]) >= score(c) {
      p := |s|;
    } else {
      var init := s[..n];
      p := InsertSplits(score, init, c);
      assert init[..p] == s[..p] && init[p..] + [s[n]] == s[p..];
      assert forall k :: 0 <= k < n ==> s[k] == init[k];
    }
  }

  /** A stable sort of all but the last candidate, with the last one inserted. */
  lemma StableSortSnoc<C>(score: C -> real, input: seq<C>, c: C, output: seq<C>)
    requires IsStableSort(score, input, output)
    ensures IsStableSort(score, input + [c], Insert(score, output, c))
  {
    InsertSorted(score, output, c);
    forall x ensures WithScore(score, Insert(score, output, c), x) == WithScore(score, input + [c], x) {
      InsertIsStable(score, output, c, x);
      WithScoreSnoc(score, input, c, x);
    }
  }

  lemma PlacedSnoc<C>(score: C -> real, input: seq<C>, c: C, output: seq<C>, places: seq<nat>)
    returns (places': seq<nat>)
    requires Sorted(score, output) && Placed(score, input, output, places)
    ensures Placed(score, input + [c], Insert(score, output, c), places')
  {
    var p := InsertSplits(score, output, c);
    places' := places[..p] + [|input|] + places[p..];
    var output' := output[..p] + [c] + output[p..];
    assert forall k :: p < k < |output'| ==> output'[k] == output[k - 1] && places'[k] == places[k - 1];
    forall j, k | 0 <= j < k < |output'| ensures Before(score, output'[j], places'[j], output'[k], places'[k]) {
      if j != p && k != p {
        var j', k' := if j < p then j else j - 1, if k < p then k else k - 1;
        assert Before(score, output[j'], places[j'], output[k'], places[k']);
      }
    }
  }

  lemma {:induction false} SortExists<C>(score: C -> real, input: seq<C>) returns (output: seq<C>, places: seq<nat>)
    ensures IsStableSort(score, input, output) && |output| == |input| && Placed(score, input, output, places)
  {
    if input == [] {
      output, places := [], [];
    } else {
      var n := |input| - 1;
      var init, before := SortExists(score, input[..n]);
      StableSortSnoc(score, input[..n], input[n], init);
      assert input[..n] + [input[n]] == input;
      output := Insert(score, init, input[n]);
      places := PlacedSnoc(score, input[..n], input[n], init, before);
    }
  }

  /** Stability in terms of positions: a stable sort is a rearrangement in which
      no candidate passes one of its own score. */
  lemma StableSortPlaces<C>(score: C -> real, input: seq<C>, output: seq<C>) returns (places: seq<nat>)
    requires IsStableSort(score, input, output)
    ensures |output| == |input| && Placed(score, input, output, places)
  {
    var other;
    other, places := SortExists(score, input);
    StableSortIsUnique(score, output, other);
  }
}
