/** The client side of an evaluate-tweets call: one RPC per planned chunk, and
    the answers put back in request order. */
module EvaluateTweets {
  import opened Basics
  import opened ChunkGroups
  import opened ChunkPlanner

  datatype RpcReply<+O> = RpcError | Response(outcomes: seq<O>)

  // ---- Decoding one reply ----

  function DecodeAll<O, R>(outcomes: seq<O>, decode: O -> Option<R>): (r: Option<seq<R>>)
    ensures r.Some? <==> forall p :: 0 <= p < |outcomes| ==> decode(outcomes[p]).Some?
    ensures r.Some? ==>
              |r.value| == |outcomes| && forall p :: 0 <= p < |outcomes| ==> decode(outcomes[p]) == Some(r.value[p])
  {
    if outcomes == [] then Some([]) else
    match DecodeAll(outcomes[1..], decode)
    case None => None
    case Some(rest) =>
      match decode(outcomes[0])
      case None => None
      case Some(first) => Some([first] + rest)
  }

  /** The answers of a reply to `requested` entries: none for a failed RPC, for a
      wrong number of outcomes, or when some outcome does not decode. */
  function DecodeResponse<O, R>(requested: nat, reply: RpcReply<O>, decode: O -> Option<R>): Option<seq<R>> {
    if reply.RpcError? || |reply.outcomes| != requested then None else DecodeAll(reply.outcomes, decode)
  }

  // ---- Putting answers back in order ----

  /** Index `i` first occurs in the plan at position `p` of chunk `c`. */
  ghost predicate FirstAt(plan: seq<seq<nat>>, i: nat, c: nat, p: nat) {
    && c < |plan| && p < |plan[c]| && plan[c][p] == i
    && forall d :: 0 <= d < c ==> i !in plan[d]
  }

  /** The answers have the shape of the plan. */
  ghost predicate Shaped<R>(plan: seq<seq<nat>>, answers: seq<seq<R>>) {
    |answers| == |plan| && forall c :: 0 <= c < |plan| ==> |answers[c]| == |plan[c]|
  }

  /** Index `i` occurs in the first `k` chunks or the first `p` entries of chunk `k`. */
  ghost predicate Visited(plan: seq<seq<nat>>, i: nat, k: nat, p: nat) {
    (exists c :: 0 <= c < k && c < |plan| && i in plan[c]) || (k < |plan| && p <= |plan[k]| && i in plan[k][..p])
  }

  /** Each slot visited so far holds the answer of its first occurrence. */
  ghost predicate SlotsOk<R>(plan: seq<seq<nat>>, answers: seq<seq<R>>, slots: seq<Option<R>>, k: nat, p: nat)
    requires Shaped(plan, answers)
  {
    && (forall i: nat :: i < |slots| ==> (slots[i].Some? <==> Visited(plan, i, k, p)))
    && (forall i: nat, c: nat, q: nat :: i < |slots| && FirstAt(plan, i, c, q) && Visited(plan, i, k, p) ==>
          slots[i] == Some(answers[c][q]))
  }

  lemma VisitNext(plan: seq<seq<nat>>, i: nat, k: nat, p: nat)
    requires k < |plan| && p < |plan[k]|
    ensures Visited(plan, i, k, p + 1) <==> Visited(plan, i, k, p) || i == plan[k][p]
  {
    assert plan[k][..p + 1] == plan[k][..p] + [plan[k][p]];
  }

  lemma VisitNextChunk(plan: seq<seq<nat>>, i: nat, k: nat)
    requires k < |plan|
    ensures Visited(plan, i, k + 1, 0) <==> Visited(plan, i, k, |plan[k]|)
  {
    assert plan[k][..|plan[k]|] == plan[k];
    assert k + 1 < |plan| ==> plan[k + 1][..0] == [];
  }

  /** Filling an empty slot, or leaving a full one, keeps the slots right. */
  lemma FillSlot<R>(plan: seq<seq<nat>>, answers: seq<seq<R>>, slots: seq<Option<R>>, k: nat, p: nat)
    requires Shaped(plan, answers) && SlotsOk(plan, answers, slots, k, p)
    requires k < |plan| && p < |plan[k]| && plan[k][p] < |slots|
    requires forall c :: 0 <= c < |plan| ==> Distinct(plan[c])
    ensures var x := plan[k][p];
            SlotsOk(plan, answers, if slots[x].None? then slots[x := Some(answers[k][p])] else slots, k, p + 1)
  {
    var x := plan[k][p];
    var slots' := if slots[x].None? then slots[x := Some(answers[k][p])] else slots;
    forall i: nat | i < |slots'| ensures slots'[i].Some? <==> Visited(plan, i, k, p + 1) {
      VisitNext(plan, i, k, p);
    }
    forall i: nat, c: nat, q: nat | i < |slots'| && FirstAt(plan, i, c, q) && Visited(plan, i, k, p + 1)
      ensures slots'[i] == Some(answers[c][q])
    {
      VisitNext(plan, i, k, p);
      if !Visited(plan, i, k, p) {
        assert i == x && !(c < k) && c <= k;
        assert c == k && q == p;
      }
    }
  }

  /** Result `i` is the answer at the first occurrence of index `i`. */
  ghost predicate Reassembled<R>(plan: seq<seq<nat>>, answers: seq<seq<R>>, results: seq<R>)
    requires Shaped(plan, answers)
  {
    forall i: nat, c: nat, p: nat :: i < |results| && FirstAt(plan, i, c, p) ==> results[i] == answers[c][p]
  }

  method Reassemble<R>(tweets: seq<TweetData>, plan: seq<seq<nat>>, answers: seq<seq<R>>) returns (results: seq<R>)
    requires PlanOk(tweets, plan) && Shaped(plan, answers)
    ensures |results| == |tweets| && Reassembled(plan, answers, results)
  {
    var ordered := new Option<R>[|tweets|](_ => None);
    for k := 0 to |plan|
      invariant SlotsOk(plan, answers, ordered[..], k, 0)
    {
      for p := 0 to |plan[k]|
        invariant SlotsOk(plan, answers, ordered[..], k, p)
      {
        var i := plan[k][p];
        assert i in plan[k];
        FillSlot(plan, answers, ordered[..], k, p);
        if ordered[i].None? {
          ordered[i] := Some(answers[k][p]);
        }
      }
      forall i: nat ensures Visited(plan, i, k + 1, 0) <==> Visited(plan, i, k, |plan[k]|) {
        VisitNextChunk(plan, i, k);
      }
    }
    ghost var slots := ordered[..];
    results := [];
    for i := 0 to |tweets|
      invariant ordered[..] == slots
      invariant |results| == i && forall k :: 0 <= k < i ==> slots[k] == Some(results[k])
    {
      assert Together(plan, i, i);
      assert Visited(plan, i, |plan|, 0);
      assert slots[i].Some?;
      results := results + [ordered[i].value];
    }
    forall i: nat, c: nat, p: nat | i < |results| && FirstAt(plan, i, c, p) ensures results[i] == answers[c][p] {
      assert Together(plan, i, i);
      assert Visited(plan, i, |plan|, 0);
    }
  }

  // ---- The call ----

  function RequestOf(tweets: seq<TweetData>, chunk: seq<nat>): (request: seq<TweetData>)
    requires forall p :: 0 <= p < |chunk| ==> chunk[p] < |tweets|
    ensures |request| == |chunk| && forall p :: 0 <= p < |chunk| ==> request[p] == tweets[chunk[p]]
  {
    seq(|chunk|, p requires 0 <= p < |chunk| => tweets[chunk[p]])
  }

  /** The answers to chunk `c`, if its RPC and its decoding succeed. */
  ghost function AnswersOf<O, R>(tweets: seq<TweetData>, plan: seq<seq<nat>>,
                                 rpc: (nat, seq<TweetData>) -> RpcReply<O>, decode: O -> Option<R>, c: nat):
    Option<seq<R>>
    requires PlanOk(tweets, plan) && c < |plan|
  {
    assert forall p :: 0 <= p < |plan[c]| ==> plan[c][p] in plan[c];
    DecodeResponse(|plan[c]|, rpc(c, RequestOf(tweets, plan[c])), decode)
  }

  /** The call succeeds exactly when it is within its deadline and every chunk is
      answered entry for entry; then the result for tweet `i` is the answer its
      first chunk gave for it. */
  ghost predicate Evaluated<O, R>(tweets: seq<TweetData>, plan: seq<seq<nat>>,
                                  rpc: (nat, seq<TweetData>) -> RpcReply<O>,
                                  decode: O -> Option<R>, inTime: bool, results: Option<seq<R>>)
  {
    && PlanOk(tweets, plan)
    && (results.Some? <==> inTime && forall c: nat :: c < |plan| ==> AnswersOf(tweets, plan, rpc, decode, c).Some?)
    && (results.Some? ==>
          && |results.value| == |tweets|
          && forall i: nat, c: nat, p: nat :: i < |tweets| && FirstAt(plan, i, c, p) ==>
               AnswersOf(tweets, plan, rpc, decode, c).Some? &&
               p < |AnswersOf(tweets, plan, rpc, decode, c).value| &&
               results.value[i] == AnswersOf(tweets, plan, rpc, decode, c).value[p])
  }

  /** Sends every chunk of the plan and puts the answers back in order; see `Evaluated`. */
  method EvaluateTweets<O, R>(tweets: seq<TweetData>, rpc: (nat, seq<TweetData>) -> RpcReply<O>,
                              decode: O -> Option<R>, inTime: bool)
    returns (results: Option<seq<R>>, plan: seq<seq<nat>>)
    ensures Evaluated(tweets, plan, rpc, decode, inTime, results)
  {
    plan := PlanEvaluateChunks(tweets);
    var answers: seq<seq<R>> := [];
    for c := 0 to |plan|
      invariant |answers| == c
      invariant forall d: nat :: d < c ==> AnswersOf(tweets, plan, rpc, decode, d) == Some(answers[d])
      invariant forall d: nat :: d < c ==> |answers[d]| == |plan[d]|
    {
      assert forall p :: 0 <= p < |plan[c]| ==> plan[c][p] in plan[c];
      var answer := DecodeResponse(|plan[c]|, rpc(c, RequestOf(tweets, plan[c])), decode);
      if answer.None? {
        assert AnswersOf(tweets, plan, rpc, decode, c).None?;
        return None, plan;
      }
      answers := answers + [answer.value];
    }
    if !inTime {
      return None, plan;
    }
    var ordered := Reassemble(tweets, plan, answers);
    results := Some(ordered);
  }

  lemma {:induction false} FirstOccurrence(plan: seq<seq<nat>>, i: nat, bound: nat) returns (c: nat, p: nat)
    requires bound <= |plan| && exists d :: 0 <= d < bound && i in plan[d]
    ensures FirstAt(plan, i, c, p) && c < bound
  {
    if exists d :: 0 <= d < bound - 1 && i in plan[d] {
      c, p := FirstOccurrence(plan, i, bound - 1);
    } else {
      c := bound - 1;
      p :| 0 <= p < |plan[c]| && plan[c][p] == i;
    }
  }

  /** The service answers a request, if it does, entry for entry as `evaluate` does. */
  ghost predicate Serves<O(!new), R>(rpc: (nat, seq<TweetData>) -> RpcReply<O>, decode: O -> Option<R>,
                                     evaluate: TweetData -> R)
  {
    forall c: nat, request: seq<TweetData> :: rpc(c, request).Response? ==>
      && |rpc(c, request).outcomes| == |request|
      && forall p :: 0 <= p < |request| ==> decode(rpc(c, request).outcomes[p]) == Some(evaluate(request[p]))
  }

  lemma ServedAnswers<O(!new), R>(tweets: seq<TweetData>, plan: seq<seq<nat>>,
                                  rpc: (nat, seq<TweetData>) -> RpcReply<O>,
                                  decode: O -> Option<R>, evaluate: TweetData -> R, c: nat)
    requires PlanOk(tweets, plan) && c < |plan| && Serves(rpc, decode, evaluate)
    ensures forall p :: 0 <= p < |plan[c]| ==> plan[c][p] in plan[c]
    ensures AnswersOf(tweets, plan, rpc, decode, c).Some? <==> rpc(c, RequestOf(tweets, plan[c])).Response?
    ensures AnswersOf(tweets, plan, rpc, decode, c).Some? ==>
              var answers := AnswersOf(tweets, plan, rpc, decode, c).value;
              |answers| == |plan[c]| && forall p :: 0 <= p < |plan[c]| ==> answers[p] == evaluate(tweets[plan[c][p]])
  {
    assert forall p :: 0 <= p < |plan[c]| ==> plan[c][p] in plan[c];
    var request := RequestOf(tweets, plan[c]);
    if rpc(c, request).Response? {
      assert forall p :: 0 <= p < |request| ==> request[p] == tweets[plan[c][p]];
    }
  }

  /** If the service evaluates each entry of a request as `evaluate` does, the call
      evaluates each tweet so, however the request was cut and repeated; and it
      fails only by its deadline or by a failed RPC. */
  lemma CallEvaluatesEachTweet<O(!new), R>(tweets: seq<TweetData>, plan: seq<seq<nat>>,
                                           rpc: (nat, seq<TweetData>) -> RpcReply<O>, decode: O -> Option<R>,
                                           inTime: bool, results: Option<seq<R>>, evaluate: TweetData -> R)
    requires Evaluated(tweets, plan, rpc, decode, inTime, results) && Serves(rpc, decode, evaluate)
    ensures forall c: nat :: c < |plan| ==> forall p :: 0 <= p < |plan[c]| ==> plan[c][p] < |tweets|
    ensures results.Some? <==>
            inTime && forall c: nat :: c < |plan| ==> rpc(c, RequestOf(tweets, plan[c])).Response?
    ensures results.Some? ==>
              |results.value| == |tweets| && forall i :: 0 <= i < |tweets| ==> results.value[i] == evaluate(tweets[i])
  {
    forall c: nat | c < |plan| ensures forall p :: 0 <= p < |plan[c]| ==> plan[c][p] < |tweets| {
      assert forall p :: 0 <= p < |plan[c]| ==> plan[c][p] in plan[c];
    }
    forall c: nat | c < |plan|
      ensures AnswersOf(tweets, plan, rpc, decode, c).Some? <==> rpc(c, RequestOf(tweets, plan[c])).Response?
    {
      ServedAnswers(tweets, plan, rpc, decode, evaluate, c);
    }
    if results.Some? {
      forall i: nat | i < |tweets| ensures results.value[i] == evaluate(tweets[i]) {
        assert Together(plan, i, i);
        var c, p := FirstOccurrence(plan, i, |plan|);
        ServedAnswers(tweets, plan, rpc, decode, evaluate, c);
      }
    }
  }
}
