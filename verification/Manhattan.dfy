/** Manhattan, the store of truth, as the history of its changes. */
module Manhattan {
  import opened Basics
  import opened Labels
  import opened LabelEntry

  /** At `at`, the items of a post became `items`. */
  datatype Change = Change(at: U64, id: TweetId, items: seq<RawSafetyLabel>)

  type History = seq<Change>

  /** The items of a post now; a post never written has none. */
  ghost function Current(history: History, id: TweetId): seq<RawSafetyLabel> {
    if history == [] then []
    else if history[|history| - 1].id == id then history[|history| - 1].items
    else Current(history[..|history| - 1], id)
  }

  /** Version `v` of a post (-1 for the state before any change) held `items`
      and was in force at `t`. */
  ghost predicate InForce(history: History, id: TweetId, items: seq<RawSafetyLabel>, v: int, t: U64) {
    && -1 <= v < |history|
    && (if v == -1 then items == []
        else history[v].id == id && history[v].items == items && history[v].at <= t)
    && forall j :: v < j < |history| && history[j].id == id ==> t <= history[j].at
  }

  /** Manhattan held `items` for the post at time `t`. */
  ghost predicate Held(history: History, id: TweetId, items: seq<RawSafetyLabel>, t: U64) {
    exists v :: InForce(history, id, items, v, t)
  }

  lemma {:induction false} CurrentIsInForce(history: History, id: TweetId, t: U64) returns (v: int)
    requires forall j :: 0 <= j < |history| ==> history[j].at <= t
    ensures InForce(history, id, Current(history, id), v, t)
    ensures forall j :: v < j < |history| ==> history[j].id != id
  {
    var n := |history| - 1;
    if history == [] {
      v := -1;
    } else if history[n].id == id {
      v := n;
    } else {
      v := CurrentIsInForce(history[..n], id, t);
    }
  }

  lemma CurrentIsHeld(history: History, id: TweetId, t: U64)
    requires forall j :: 0 <= j < |history| ==> history[j].at <= t
    ensures Held(history, id, Current(history, id), t)
  {
    var v := CurrentIsInForce(history, id, t);
  }

  /** Later changes do not alter what was held. */
  lemma HeldStays(history: History, change: Change, id: TweetId, items: seq<RawSafetyLabel>, t: U64)
    requires Held(history, id, items, t) && t <= change.at
    ensures Held(history + [change], id, items, t)
  {
    var v :| InForce(history, id, items, v, t);
    assert InForce(history + [change], id, items, v, t);
  }

  /** Manhattan held `items` at some time between `from` and `to`. */
  ghost predicate HeldWithin(history: History, id: TweetId, items: seq<RawSafetyLabel>, from: int, to: int) {
    exists t: U64 :: from <= t <= to && Held(history, id, items, t)
  }

  /** One history continues another, by changes no earlier than `now`. */
  ghost predicate Continues(history: History, later: History, now: U64) {
    later == history ||
    (|later| == |history| + 1 && later[..|history|] == history && now <= later[|history|].at)
  }

  lemma HeldWithinStays(history: History, later: History, now: U64, id: TweetId,
                        items: seq<RawSafetyLabel>, from: int, to: int, to': int)
    requires Continues(history, later, now)
    requires HeldWithin(history, id, items, from, to) && to <= now && to <= to'
    ensures HeldWithin(later, id, items, from, to')
  {
    var t: U64 :| from <= t <= to && Held(history, id, items, t);
    if later != history {
      assert later == history + [later[|history|]];
      HeldStays(history, later[|history|], id, items, t);
    }
  }
}
