/** Any number of servers over one label cache and one Manhattan. Each has its own
    tasks, queue, pending set, writer and hot-key cache; servers start at any time,
    with whatever the cache then holds, and may stop taking steps at any time. A store
    that a server gave up for failed may be applied later, also after that server is
    gone. Every server of such a fleet goes through a run of `LabelCacheProtocol`, so
    whatever holds in every run holds of every server. */
module Servers {
  import opened Basics
  import opened Labels
  import opened LabelEntry
  import opened Manhattan
  import opened LabelCacheProtocol
  import opened Staleness

  /** `base` is what a server finds that starts now; `late` are the stores that may
      still be applied. */
  datatype Fleet = Fleet(base: State, servers: seq<State>, late: set<(TweetId, Bytes)>)

  datatype FleetStep =
    | World(step: Step)
    | Start
    | Own(server: nat, step: Step)
    | Deliver(id: TweetId, bytes: Bytes)

  /** A step of the clock, of Manhattan or of the cache. */
  ghost predicate IsWorld(step: Step) {
    step.Tick? || step.ManhattanWrite? || step.Remove?
  }

  ghost function Everyone(fleet: Fleet, f: State -> State): Fleet {
    fleet.(base := f(fleet.base),
           servers := seq(|fleet.servers|, k requires 0 <= k < |fleet.servers| => f(fleet.servers[k])))
  }

  /** What a step of the world does to a state. */
  ghost function AfterWorld(step: Step): State -> State {
    (s: State) =>
      match step
      case Tick(nowMs) => s.(nowMs := nowMs)
      case ManhattanWrite(id, items) => s.(history := s.history + [Change(s.nowMs, id, items)])
      case Remove(id) => s.(cache := s.cache - {id})
      case _ => s
  }

  /** What a store by anyone does to a state. */
  ghost function AfterStore(id: TweetId, bytes: Bytes): State -> State {
    (s: State) => s.(cache := s.cache[id := bytes])
  }

  ghost predicate FleetEnabled(decoders: Decoders, fleet: Fleet, step: FleetStep) {
    match step
    case World(step) => IsWorld(step) && (step.Tick? ==> fleet.base.nowMs <= step.nowMs)
    case Start => true
    case Own(k, step) =>
      k < |fleet.servers| && !IsWorld(step) && !step.OtherServer? && Enabled(decoders, fleet.servers[k], step)
    case Deliver(id, bytes) => (id, bytes) in fleet.late
  }

  /** A server's own step is its own, except that everyone sees its stores, and that a
      store it took for failed may come late. */
  ghost function FleetApply(decoders: Decoders, fleet: Fleet, step: FleetStep): Fleet
    requires FleetEnabled(decoders, fleet, step)
  {
    match step
    case World(step) => Everyone(fleet, AfterWorld(step))
    case Start => fleet.(servers := fleet.servers + [fleet.base])
    case Deliver(id, bytes) => Everyone(fleet, AfterStore(id, bytes))
    case Own(k, step) =>
      var s := fleet.servers[k];
      var seen := if step.Write? && step.stored
                  then Everyone(fleet, AfterStore(s.writer.writes[step.index].0, s.writer.writes[step.index].1))
                  else fleet;
      seen.(servers := seen.servers[k := Apply(decoders, s, step)],
            late := if step.Write? && !step.stored then fleet.late + {s.writer.writes[step.index]} else fleet.late)
  }

  ghost function FleetRun(decoders: Decoders, start: U64, steps: seq<FleetStep>): Option<Fleet> {
    if steps == [] then Some(Fleet(Init(start), [], {})) else
    var last := steps[|steps| - 1];
    match FleetRun(decoders, start, steps[..|steps| - 1])
    case None => None
    case Some(fleet) => if FleetEnabled(decoders, fleet, last) then Some(FleetApply(decoders, fleet, last)) else None
  }

  // ---- Every server goes through a run ----

  ghost predicate Reachable(decoders: Decoders, start: U64, s: State) {
    exists steps :: Run(decoders, start, steps) == Some(s)
  }

  lemma ReachNext(decoders: Decoders, start: U64, s: State, step: Step)
    requires Reachable(decoders, start, s) && Enabled(decoders, s, step)
    ensures Reachable(decoders, start, Apply(decoders, s, step))
  {
    var steps :| Run(decoders, start, steps) == Some(s);
    assert (steps + [step])[..|steps|] == steps;
    assert Run(decoders, start, steps + [step]) == Some(Apply(decoders, s, step));
  }

  lemma ReachableIsSound(decoders: Decoders, start: U64, s: State)
    requires Reachable(decoders, start, s)
    ensures Sound(decoders, s)
  {
    var steps :| Run(decoders, start, steps) == Some(s);
    RunIsSound(decoders, start, steps);
  }

  /** A store of anything that a server may store is a step of another server. */
  lemma StoreIsAStep(decoders: Decoders, start: U64, s: State, id: TweetId, bytes: Bytes)
    requires Reachable(decoders, start, s) && StoredOk(decoders, s.history, s.nowMs, id, bytes)
    ensures Reachable(decoders, start, AfterStore(id, bytes)(s))
  {
    var fill, items :| bytes == EncodeEntry(fill, items) && Filled(decoders, s.history, s.nowMs, id, fill, items);
    ReachNext(decoders, start, s, OtherServer(id, fill, items));
  }

  lemma WorldIsAStep(decoders: Decoders, start: U64, s: State, step: Step)
    requires Reachable(decoders, start, s) && IsWorld(step) && (step.Tick? ==> s.nowMs <= step.nowMs)
    ensures Reachable(decoders, start, AfterWorld(step)(s))
  {
    ReachNext(decoders, start, s, step);
  }

  ghost predicate SameWorld(s: State, base: State) {
    s.nowMs == base.nowMs && s.history == base.history && s.cache == base.cache
  }

  /** All servers are in the same world and have got there by runs; whatever may still
      be stored is something that a server may store. */
  ghost predicate FleetOk(decoders: Decoders, start: U64, fleet: Fleet) {
    && Reachable(decoders, start, fleet.base)
    && (forall k :: 0 <= k < |fleet.servers| ==> ServerOk(decoders, start, fleet.base, fleet.servers[k]))
    && (forall id, bytes :: (id, bytes) in fleet.late ==>
          StoredOk(decoders, fleet.base.history, fleet.base.nowMs, id, bytes))
  }

  ghost predicate ServerOk(decoders: Decoders, start: U64, base: State, s: State) {
    Reachable(decoders, start, s) && SameWorld(s, base)
  }

  lemma WorldKeepsFleet(decoders: Decoders, start: U64, fleet: Fleet, step: Step)
    requires FleetOk(decoders, start, fleet) && FleetEnabled(decoders, fleet, World(step))
    ensures FleetOk(decoders, start, FleetApply(decoders, fleet, World(step)))
  {
    var base, fleet' := fleet.base, FleetApply(decoders, fleet, World(step));
    WorldIsAStep(decoders, start, base, step);
    forall k | 0 <= k < |fleet.servers| ensures ServerOk(decoders, start, fleet'.base, fleet'.servers[k]) {
      assert ServerOk(decoders, start, base, fleet.servers[k]);
      WorldIsAStep(decoders, start, fleet.servers[k], step);
    }
    forall id, bytes | (id, bytes) in fleet.late
      ensures StoredOk(decoders, fleet'.base.history, fleet'.base.nowMs, id, bytes)
    {
      StoredStays(decoders, base.history, base.nowMs, fleet'.base.history, fleet'.base.nowMs, id, bytes);
    }
  }

  lemma StoreKeepsFleet(decoders: Decoders, start: U64, fleet: Fleet, id: TweetId, bytes: Bytes)
    requires FleetOk(decoders, start, fleet)
    requires StoredOk(decoders, fleet.base.history, fleet.base.nowMs, id, bytes)
    ensures FleetOk(decoders, start, Everyone(fleet, AfterStore(id, bytes)))
  {
    var base, fleet' := fleet.base, Everyone(fleet, AfterStore(id, bytes));
    StoreIsAStep(decoders, start, base, id, bytes);
    forall k | 0 <= k < |fleet.servers| ensures ServerOk(decoders, start, fleet'.base, fleet'.servers[k]) {
      assert ServerOk(decoders, start, base, fleet.servers[k]);
      StoreIsAStep(decoders, start, fleet.servers[k], id, bytes);
    }
  }

  /** A step that is no step of the world and no store stays within the server. */
  lemma OwnStepStays(decoders: Decoders, s: State, step: Step)
    requires Enabled(decoders, s, step) && !IsWorld(step) && !step.OtherServer? && !(step.Write? && step.stored)
    ensures SameWorld(Apply(decoders, s, step), s)
  {
  }

  lemma WritesMayBeStored(decoders: Decoders, start: U64, s: State, i: nat)
    requires Reachable(decoders, start, s) && s.writer.Writing? && i < |s.writer.writes|
    ensures StoredOk(decoders, s.history, s.nowMs, s.writer.writes[i].0, s.writer.writes[i].1)
  {
    ReachableIsSound(decoders, start, s);
  }

  lemma ReplaceServer(decoders: Decoders, start: U64, fleet: Fleet, k: nat, s: State, late: set<(TweetId, Bytes)>)
    requires FleetOk(decoders, start, fleet) && k < |fleet.servers| && ServerOk(decoders, start, fleet.base, s)
    requires forall id, bytes :: (id, bytes) in late ==>
               StoredOk(decoders, fleet.base.history, fleet.base.nowMs, id, bytes)
    ensures FleetOk(decoders, start, fleet.(servers := fleet.servers[k := s], late := late))
  {
  }

  lemma OwnStepKeepsFleet(decoders: Decoders, start: U64, fleet: Fleet, k: nat, step: Step)
    requires FleetOk(decoders, start, fleet) && FleetEnabled(decoders, fleet, Own(k, step))
    ensures FleetOk(decoders, start, FleetApply(decoders, fleet, Own(k, step)))
  {
    var s := fleet.servers[k];
    assert ServerOk(decoders, start, fleet.base, s);
    ReachNext(decoders, start, s, step);
    var s' := Apply(decoders, s, step);
    if step.Write? {
      WritesMayBeStored(decoders, start, s, step.index);
      var (id, bytes) := s.writer.writes[step.index];
      if step.stored {
        StoreKeepsFleet(decoders, start, fleet, id, bytes);
        ReplaceServer(decoders, start, Everyone(fleet, AfterStore(id, bytes)), k, s', fleet.late);
      } else {
        OwnStepStays(decoders, s, step);
        ReplaceServer(decoders, start, fleet, k, s', fleet.late + {(id, bytes)});
      }
    } else {
      OwnStepStays(decoders, s, step);
      ReplaceServer(decoders, start, fleet, k, s', fleet.late);
    }
  }

  lemma FleetStepKeeps(decoders: Decoders, start: U64, fleet: Fleet, step: FleetStep)
    requires FleetOk(decoders, start, fleet) && FleetEnabled(decoders, fleet, step)
    ensures FleetOk(decoders, start, FleetApply(decoders, fleet, step))
  {
    match step {
      case World(step) => WorldKeepsFleet(decoders, start, fleet, step);
      case Start =>
      case Own(k, step) => OwnStepKeepsFleet(decoders, start, fleet, k, step);
      case Deliver(id, bytes) => StoreKeepsFleet(decoders, start, fleet, id, bytes);
    }
  }

  lemma {:induction false} FleetRunIsOk(decoders: Decoders, start: U64, steps: seq<FleetStep>)
    requires FleetRun(decoders, start, steps).Some?
    ensures FleetOk(decoders, start, FleetRun(decoders, start, steps).value)
  {
    if steps == [] {
      assert Run(decoders, start, []) == Some(Init(start));
    } else {
      var n := |steps| - 1;
      FleetRunIsOk(decoders, start, steps[..n]);
      FleetStepKeeps(decoders, start, FleetRun(decoders, start, steps[..n]).value, steps[n]);
    }
  }

  /** Every server, in every run of a fleet, goes through a run of the protocol in the
      world that all share. */
  lemma ServerGoesThroughRun(decoders: Decoders, start: U64, steps: seq<FleetStep>, k: nat) returns (own: seq<Step>)
    requires FleetRun(decoders, start, steps).Some? && k < |FleetRun(decoders, start, steps).value.servers|
    ensures var fleet := FleetRun(decoders, start, steps).value;
            Run(decoders, start, own) == Some(fleet.servers[k]) && SameWorld(fleet.servers[k], fleet.base)
  {
    FleetRunIsOk(decoders, start, steps);
    var fleet := FleetRun(decoders, start, steps).value;
    assert ServerOk(decoders, start, fleet.base, fleet.servers[k]);
    own :| Run(decoders, start, own) == Some(fleet.servers[k]);
  }

  /** So every hit of any server is young, whichever server stored the entry, and
      however late. */
  lemma HitsOfAnyServerAreYoung(decoders: Decoders, start: U64, steps: seq<FleetStep>, k: nat, j: nat, id: TweetId)
    returns (items: seq<RawSafetyLabel>, t: U64)
    requires FleetRun(decoders, start, steps).Some? && k < |FleetRun(decoders, start, steps).value.servers|
    requires var s := FleetRun(decoders, start, steps).value.servers[k];
             j < |s.tasks| && id in s.tasks[j].seen && s.tasks[j].seen[id].Hit?
    ensures var base := FleetRun(decoders, start, steps).value.base;
            var Task(context, seen, _, _, _) := FleetRun(decoders, start, steps).value.servers[k].tasks[j];
            YoungHit(decoders, base.history, base.nowMs, id, context, seen[id].envelope, items, t)
  {
    var own := ServerGoesThroughRun(decoders, start, steps, k);
    items, t := HitsAreYoung(decoders, start, own, j, id);
  }
}
