/** The server side of an evaluate-tweets call: the evaluator's outcomes, which
    may leave some judged candidates out, are paired with the request's entries
    in one pass. */
module OutcomePairing {
  datatype Entry<K> = Judged(key: K) | NotJudged

  datatype Outcome<K, E> = Outcome(key: K, evaluation: E)

  datatype Answer<E> = SkippedEntry | Unpaired | Evaluated(evaluation: E)

  /** How many outcomes the first `n` entries use up: an entry takes the next
      outcome when that outcome has its key. */
  function UsedUp<K(==), E>(entries: seq<Entry<K>>, outcomes: seq<Outcome<K, E>>, n: nat): (used: nat)
    requires n <= |entries|
    ensures used <= |outcomes|
  {
    if n == 0 then 0 else
    var used := UsedUp(entries, outcomes, n - 1);
    if used < |outcomes| && entries[n - 1] == Judged(outcomes[used].key) then used + 1 else used
  }

  ghost function JudgedCount<K>(entries: seq<Entry<K>>): nat {
    if entries == [] then 0
    else JudgedCount(entries[..|entries| - 1]) + if entries[|entries| - 1].Judged? then 1 else 0
  }

  /** What the answer to entry `i` must be: nothing for an entry not judged; for
      a judged one the evaluation of its own key, or none. */
  ghost predicate AnswerFits<K, E>(entry: Entry<K>, answer: Answer<E>, outcomes: seq<Outcome<K, E>>, used: nat) {
    match answer
    case SkippedEntry => entry.NotJudged?
    case Unpaired => entry.Judged? && (used < |outcomes| ==> outcomes[used].key != entry.key)
    case Evaluated(evaluation) =>
      entry.Judged? && used < |outcomes| && outcomes[used] == Outcome(entry.key, evaluation)
  }

  /** Answer `i` fits entry `i`, and uses up an outcome just when it is an evaluation. */
  ghost predicate PairedAt<K, E>(entries: seq<Entry<K>>, outcomes: seq<Outcome<K, E>>, i: nat, answer: Answer<E>)
    requires i < |entries|
  {
    var used := UsedUp(entries, outcomes, i);
    && AnswerFits(entries[i], answer, outcomes, used)
    && UsedUp(entries, outcomes, i + 1) == used + if answer.Evaluated? then 1 else 0
  }

  /** One answer per entry, in order; no entry gets another key's evaluation; each
      outcome is used at most once, in order; and the judged entries left
      without one are counted. */
  method Pair<K(==), E>(entries: seq<Entry<K>>, outcomes: seq<Outcome<K, E>>)
    returns (answers: seq<Answer<E>>, unpaired: nat)
    ensures |answers| == |entries|
    ensures forall i :: 0 <= i < |entries| ==> PairedAt(entries, outcomes, i, answers[i])
    ensures unpaired + UsedUp(entries, outcomes, |entries|) == JudgedCount(entries)
  {
    answers, unpaired := [], 0;
    var next := 0;
    for i := 0 to |entries|
      invariant |answers| == i
      invariant next == UsedUp(entries, outcomes, i)
      invariant forall k :: 0 <= k < i ==> PairedAt(entries, outcomes, k, answers[k])
      invariant unpaired + next == JudgedCount(entries[..i])
    {
      assert entries[..i + 1][..i] == entries[..i];
      var answer := SkippedEntry;
      match entries[i] {
        case NotJudged =>
        case Judged(key) =>
          if next < |outcomes| && outcomes[next].key == key {
            answer := Evaluated(outcomes[next].evaluation);
            next := next + 1;
          } else {
            answer := Unpaired;
            unpaired := unpaired + 1;
          }
      }
      assert PairedAt(entries, outcomes, i, answer);
      answers := answers + [answer];
    }
    assert entries[..|entries|] == entries;
  }

  /** `places` shows the outcome keys as a subsequence of the judged keys. */
  ghost predicate Embeds<K, E>(entries: seq<Entry<K>>, outcomes: seq<Outcome<K, E>>, places: seq<nat>) {
    && |places| == |outcomes|
    && (forall k :: 0 <= k < |places| ==> places[k] < |entries| && entries[places[k]] == Judged(outcomes[k].key))
    && (forall j, k :: 0 <= j < k < |places| ==> places[j] < places[k])
  }

  /** The greedy pass is never behind any embedding. */
  lemma {:induction false} GreedyKeepsUp<K, E>(entries: seq<Entry<K>>, outcomes: seq<Outcome<K, E>>, places: seq<nat>,
                                               n: nat, k: nat)
    requires Embeds(entries, outcomes, places) && n <= |entries| && k < |places| && places[k] < n
    ensures k < UsedUp(entries, outcomes, n)
  {
    var used := UsedUp(entries, outcomes, n - 1);
    if places[k] < n - 1 {
      GreedyKeepsUp(entries, outcomes, places, n - 1, k);
    } else if k > used {
      GreedyKeepsUp(entries, outcomes, places, n - 1, used);
    }
  }

  /** Where the greedy pass used its outcomes. */
  lemma {:induction false} GreedyPlaces<K, E>(entries: seq<Entry<K>>, outcomes: seq<Outcome<K, E>>, n: nat)
    returns (places: seq<nat>)
    requires n <= |entries|
    ensures Embeds(entries, outcomes[..UsedUp(entries, outcomes, n)], places)
    ensures forall k :: 0 <= k < |places| ==> places[k] < n
  {
    if n == 0 {
      places := [];
    } else {
      places := GreedyPlaces(entries, outcomes, n - 1);
      var used := UsedUp(entries, outcomes, n - 1);
      if UsedUp(entries, outcomes, n) == used + 1 {
        places := places + [n - 1];
      }
    }
  }

  /** Every outcome is consumed exactly when the outcome keys, repeats allowed,
      are a subsequence of the judged keys; with `Pair`'s count, the unpaired
      are then as many as there are judged entries more than outcomes. */
  lemma AllConsumedIffSubsequence<K, E>(entries: seq<Entry<K>>, outcomes: seq<Outcome<K, E>>)
    ensures UsedUp(entries, outcomes, |entries|) == |outcomes| <==> exists places :: Embeds(entries, outcomes, places)
  {
    if places :| Embeds(entries, outcomes, places) {
      if outcomes != [] {
        GreedyKeepsUp(entries, outcomes, places, |entries|, |outcomes| - 1);
      }
    }
    if UsedUp(entries, outcomes, |entries|) == |outcomes| {
      var places := GreedyPlaces(entries, outcomes, |entries|);
      assert outcomes[..|outcomes|] == outcomes;
    }
  }
}
