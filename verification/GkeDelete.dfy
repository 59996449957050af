/**
 Deletion of a GKE pair. The provider cannot see how large a pool is, so it goes
 by attached Nodes: turn autoscaling off, resize to zero, and delete a pool only
 once no Node is attached to the Machine.
 */
module GkeDelete {
  import opened Prelude
  import opened Cloud

  /** A node pool; `size` is what the provider API does not reveal. */
  datatype Pool = Pool(autoscaling: bool, size: nat, owned: bool, spot: bool)

  datatype Desired = Desired(attachmentObserved: bool, attachedNodes: nat, effective: Class)

  datatype Answer = Stopping | Failed | Gone

  datatype Plan =
    | Report(answer: Answer)
    | SetAutoscaling(slot: Slot, enabled: bool)
    | SetSize(slot: Slot, size: nat)
    | Delete(slot: Slot)

  datatype Pools = Pools(spot: Option<Pool>, reliable: Option<Pool>) {
    function At(slot: Slot): Option<Pool> {
      if slot == Spot then spot else reliable
    }

    function With(slot: Slot, p: Option<Pool>): Pools {
      if slot == Spot then this.(spot := p) else this.(reliable := p)
    }

    predicate Empty() {
      spot.None? && reliable.None?
    }
  }

  // ---- the decision, and its effect ----

  function Mutate(regional: bool, slot: Slot, p: Pool, active: bool): Plan {
    if regional && (active || p.autoscaling) then SetAutoscaling(slot, active)
    else SetSize(slot, if active then 1 else 0)
  }

  /** The pool the drain works on: the one serving the Machine, or the one that still exists. */
  function Target(pools: Pools, effective: Class): Slot {
    var named := if effective == Reliable then OnDemand else Spot;
    if pools.At(named) != None then named
    else if pools.reliable != None then OnDemand
    else Spot
  }

  function Decide(regional: bool, d: Desired, pools: Pools): Plan {
    if !d.attachmentObserved then Report(Stopping)
    else if d.attachedNodes > 0 then
      var slot := Target(pools, d.effective);
      if pools.At(slot) == None then Report(Stopping) else Mutate(regional, slot, pools.At(slot).value, false)
    else if pools.spot != None then
      if pools.spot.value.owned && pools.spot.value.spot then Delete(Spot) else Report(Failed)
    else if pools.reliable != None then
      if pools.reliable.value.owned && !pools.reliable.value.spot then Delete(OnDemand) else Report(Failed)
    else Report(Gone)
  }

  function Effect(plan: Plan, pools: Pools, oc: Outcome): Pools {
    if plan.Report? || !oc.applied || pools.At(plan.slot) == None then pools
    else
      var p := pools.At(plan.slot).value;
      match plan
      case SetAutoscaling(slot, enabled) => pools.With(slot, Some(p.(autoscaling := enabled)))
      case SetSize(slot, size) => pools.With(slot, Some(p.(size := size)))
      case Delete(slot) => pools.With(slot, None)
      case Report(_) => pools
  }

  function Reply(plan: Plan, error: CallError): Result<Answer, CallError> {
    match plan
    case Report(answer) => Ok(answer)
    case Delete(_) => if error == NoError || error == NotFound || error == Conflict then Ok(Stopping) else Err(error)
    case _ => if error == NoError || error == Conflict then Ok(Stopping) else Err(error)
  }

  // ---- the adapter ----

  class GkeAdapter {
    const regional: bool
    var pools: Pools

    constructor (regional: bool, pools: Pools)
      ensures this.regional == regional && this.pools == pools
    {
      this.regional, this.pools := regional, pools;
    }

    method MutatePairSize(slot: Slot, pool: Pool, active: bool, oc: Outcome) returns (r: Result<Answer, CallError>)
      requires pools.At(slot) == Some(pool)
      modifies this`pools
      ensures pools == Effect(Mutate(regional, slot, pool, active), old(pools), oc)
      ensures r == Reply(Mutate(regional, slot, pool, active), oc.error)
    {
      if regional {
        var want := false;
        if active {
          want := true;
        }
        if active || pool.autoscaling {
          if oc.applied {
            pools := pools.With(slot, Some(pool.(autoscaling := want)));
          }
          if oc.error != NoError && oc.error != Conflict {
            return Err(oc.error);
          }
          return Ok(Stopping);
        }
      }
      var size := 0;
      if active {
        size := 1;
      }
      if oc.applied {
        pools := pools.With(slot, Some(pool.(size := size)));
      }
      if oc.error != NoError && oc.error != Conflict {
        return Err(oc.error);
      }
      return Ok(Stopping);
    }

    method DeletePair(d: Desired, oc: Outcome) returns (r: Result<Answer, CallError>)
      modifies this`pools
      ensures pools == Effect(Decide(regional, d, old(pools)), old(pools), oc)
      ensures r == Reply(Decide(regional, d, old(pools)), oc.error)
    {
      if !d.attachmentObserved {
        return Ok(Stopping);
      }
      if d.attachedNodes > 0 {
        var slot, pool := Spot, pools.spot;
        if d.effective == Reliable {
          slot, pool := OnDemand, pools.reliable;
        }
        if pool == None && pools.reliable != None {
          slot, pool := OnDemand, pools.reliable;
        }
        if pool == None && pools.spot != None {
          slot, pool := Spot, pools.spot;
        }
        if pool != None {
          r := MutatePairSize(slot, pool.value, false, oc);
          return;
        }
        return Ok(Stopping);
      }
      var slots := [Spot, OnDemand];
      var i := 0;
      while i < 2
        invariant 0 <= i <= 2 && pools == old(pools)
        invariant i >= 1 ==> pools.spot == None
        invariant i == 2 ==> pools.reliable == None
      {
        var pool := pools.At(slots[i]);
        if pool != None {
          if !pool.value.owned || pool.value.spot != (i == 0) {
            return Ok(Failed);
          }
          if oc.applied {
            pools := pools.With(slots[i], None);
          }
          if oc.error != NoError && oc.error != NotFound && oc.error != Conflict {
            return Err(oc.error);
          }
          return Ok(Stopping);
        }
        i := i + 1;
      }
      return Ok(Gone);
    }
  }

  // ---- the surroundings ----

  datatype World = World(regional: bool, pools: Pools, spotNodes: nat, reliableNodes: nat, effective: Class) {
    function Nodes(): nat {
      spotNodes + reliableNodes
    }

    function NodesOf(slot: Slot): nat {
      if slot == Spot then spotNodes else reliableNodes
    }

    function Asked(observed: bool): Desired {
      Desired(observed, if observed then Nodes() else 0, effective)
    }

    function Plan(observed: bool): Plan {
      Decide(regional, Asked(observed), pools)
    }
  }

  /** Pools made by the adapter: only regional ones autoscale, and each has its own class. */
  predicate WellFormed(w: World) {
    && (w.pools.spot.Some? ==>
          w.pools.spot.value.owned && w.pools.spot.value.spot && (w.pools.spot.value.autoscaling ==> w.regional))
    && (w.pools.reliable.Some? ==>
          w.pools.reliable.value.owned && !w.pools.reliable.value.spot &&
          (w.pools.reliable.value.autoscaling ==> w.regional))
  }

  /** The pool keeps its Nodes: it has, or its autoscaler will restore, a size above zero. */
  predicate Holds(p: Option<Pool>) {
    p.Some? && (p.value.size > 0 || p.value.autoscaling)
  }

  /** An autoscaling pool is brought to its minimum of one. */
  function Settled(p: Option<Pool>): Option<Pool> {
    if p.Some? && p.value.autoscaling then Some(p.value.(size := 1)) else p
  }

  datatype Step =
    | Reconcile(observed: bool, oc: Outcome)
    | Autoscale(slot: Slot)
    | Attach(slot: Slot)
    | Detach(slot: Slot)

  function Next(w: World, s: Step): World {
    match s
    case Reconcile(observed, oc) => w.(pools := Effect(w.Plan(observed), w.pools, oc))
    case Autoscale(slot) => w.(pools := w.pools.With(slot, Settled(w.pools.At(slot))))
    case Attach(slot) => if slot == Spot then w.(spotNodes := w.spotNodes + 1)
    else w.(reliableNodes := w.reliableNodes + 1)
    case Detach(slot) =>
      if slot == Spot then w.(spotNodes := if w.spotNodes > 0 then w.spotNodes - 1 else 0)
      else w.(reliableNodes := if w.reliableNodes > 0 then w.reliableNodes - 1 else 0)
  }

  // ---- safety and completion ----

  /** A pool is deleted only with zero Nodes observed on the whole Machine. */
  lemma DeletesOnlyWithoutNodes(w: World, observed: bool)
    requires w.Plan(observed).Delete?
    ensures observed && w.Nodes() == 0 && w.pools.At(w.Plan(observed).slot) != None
    ensures w.Plan(observed).slot == OnDemand ==> w.pools.spot == None
  {
  }

  /** A Node is held by the pool that the drain does not work on. */
  predicate Stuck(w: World) {
    var other := Other(Target(w.pools, w.effective));
    w.NodesOf(other) > 0 && Holds(w.pools.At(other))
  }

  /** Nodes leave only pools that no longer hold them. */
  predicate Drains(w: World, s: Step) {
    s.Detach? ==> !Holds(w.pools.At(s.slot))
  }

  lemma StuckStays(w: World, s: Step)
    requires WellFormed(w) && Stuck(w) && Drains(w, s)
    ensures WellFormed(Next(w, s)) && Stuck(Next(w, s))
    ensures s.Reconcile? ==> w.Plan(s.observed) != Report(Gone) && !w.Plan(s.observed).Delete?
  {
  }

  // ---- progress, in any order of steps ----

  /** Calls that the drain still needs while Nodes are attached, and one deletion for each pool. */
  function Work(w: World): nat {
    var target := w.pools.At(Target(w.pools, w.effective));
    var drain := if target == None then 0 else if target.value.autoscaling then 2 else if target.value.size > 0 then 1
                 else 0;
    (if w.Nodes() == 0 then 0 else drain) + (if w.pools.spot.Some? then 1 else 0)
    + (if w.pools.reliable.Some? then 1 else 0)
  }

  /** An observed reconcile whose call takes effect, with no Node left or its pool still to be drained. */
  predicate Unblocked(w: World, s: Step) {
    s.Reconcile? && s.observed && s.oc.applied && (w.Nodes() == 0 || Holds(w.pools.At(Target(w.pools, w.effective))))
  }

  /** Nothing adds to the work or makes a state stuck, and an unblocked reconcile does some of it. */
  lemma AnyStep(w: World, s: Step)
    requires WellFormed(w) && !Stuck(w) && !s.Attach?
    ensures var after := Next(w, s);
            && WellFormed(after) && !Stuck(after) && after.Nodes() <= w.Nodes()
            && Work(after) + (if Unblocked(w, s) && Work(w) > 0 then 1 else 0) <= Work(w)
    ensures s.Reconcile? && s.observed && s.oc.applied && !Unblocked(w, s) ==>
              forall slot :: w.NodesOf(slot) > 0 ==> !Holds(w.pools.At(slot))
  {
    match s
    case Reconcile(observed, oc) => ReconcileWorks(w, observed, oc);
    case Autoscale(slot) =>
      assert Target(Next(w, s).pools, w.effective) == Target(w.pools, w.effective);
    case Detach(slot) =>
  }

  lemma ReconcileWorks(w: World, observed: bool, oc: Outcome)
    requires WellFormed(w) && !Stuck(w)
    ensures var after := Next(w, Reconcile(observed, oc));
            && WellFormed(after) && !Stuck(after) && after.Nodes() == w.Nodes()
            && Work(after) + (if Unblocked(w, Reconcile(observed, oc)) && Work(w) > 0 then 1 else 0) <= Work(w)
    ensures observed && oc.applied && !Unblocked(w, Reconcile(observed, oc)) ==>
              forall slot :: w.NodesOf(slot) > 0 ==> !Holds(w.pools.At(slot))
  {
    var target := Target(w.pools, w.effective);
    if observed && w.Nodes() > 0 && w.pools.At(target) != None {
      var after := Next(w, Reconcile(observed, oc));
      assert w.Plan(observed) == Mutate(w.regional, target, w.pools.At(target).value, false);
      assert Target(after.pools, w.effective) == target;
    }
  }

  ghost predicate IsRun(ws: seq<World>, steps: seq<Step>) {
    && |ws| == |steps| + 1
    && (forall i :: 0 <= i < |steps| ==> ws[i + 1] == Next(ws[i], steps[i]))
  }

  function CountUnblocked(ws: seq<World>, steps: seq<Step>, i: nat): nat
    requires i <= |steps| < |ws|
  {
    if i == 0 then 0 else CountUnblocked(ws, steps, i - 1) + if Unblocked(ws[i - 1], steps[i - 1]) then 1 else 0
  }

  /**
   In any order of reconciles, failed or not, autoscaling and Nodes leaving, a
   state that is not stuck never becomes so, and four unblocked reconciles leave
   neither pool.
   */
  lemma {:induction false} DeletionCompletesInAnyOrder(ws: seq<World>, steps: seq<Step>, i: nat)
    requires IsRun(ws, steps) && i <= |steps| && forall j :: 0 <= j < |steps| ==> !steps[j].Attach?
    requires WellFormed(ws[0]) && !Stuck(ws[0])
    ensures WellFormed(ws[i]) && !Stuck(ws[i])
    ensures Work(ws[i]) > 0 ==> Work(ws[i]) + CountUnblocked(ws, steps, i) <= Work(ws[0]) <= 4
    ensures CountUnblocked(ws, steps, i) >= 4 ==> ws[i].pools.Empty()
    ensures ws[i].pools.Empty() && ws[i].Nodes() == 0 ==> ws[i].Plan(true) == Report(Gone)
  {
    if i > 0 {
      DeletionCompletesInAnyOrder(ws, steps, i - 1);
      assert ws[i] == Next(ws[i - 1], steps[i - 1]);
      AnyStep(ws[i - 1], steps[i - 1]);
    }
  }

  // ---- completion, round by round ----

  /** The autoscaler acts, and drained Nodes leave. */
  function Quiet(w: World): World {
    var pools := Pools(Settled(w.pools.spot), Settled(w.pools.reliable));
    w.(pools := pools,
    spotNodes := if Holds(pools.spot) then w.spotNodes else 0,
    reliableNodes := if Holds(pools.reliable) then w.reliableNodes else 0)
  }

  /** A reconcile that observes attachment and whose call takes effect, whatever it answers. */
  predicate TakesEffect(s: Step) {
    s.Reconcile? && s.observed && s.oc.applied
  }

  /** Then the adapter reconciles once. */
  function Round(w: World, s: Step): World {
    Next(Quiet(w), s)
  }

  function Rounds(w: World, calls: seq<Step>): World {
    if calls == [] then w else Round(Rounds(w, calls[..|calls| - 1]), calls[|calls| - 1])
  }

  predicate ReportsGone(w: World) {
    Quiet(w).Plan(true) == Report(Gone)
  }

  lemma QuietKeepsStuck(w: World)
    requires WellFormed(w)
    ensures WellFormed(Quiet(w)) && Target(Quiet(w).pools, w.effective) == Target(w.pools, w.effective)
    ensures Stuck(Quiet(w)) == Stuck(w)
  {
  }

  lemma QuietKeepsWork(w: World)
    requires WellFormed(w)
    ensures Work(Quiet(w)) <= Work(w)
  {
    QuietKeepsStuck(w);
  }

  /** In the quiet the adapter is not blocked, unless the state is stuck. */
  lemma QuietIsReady(w: World, s: Step)
    requires WellFormed(w) && !Stuck(w) && TakesEffect(s)
    ensures Unblocked(Quiet(w), s)
  {
    QuietKeepsStuck(w);
  }

  lemma QuietEnd(w: World)
    ensures ReportsGone(w) ==> w.pools.Empty()
    ensures w.pools.Empty() ==> ReportsGone(w)
  {
  }

  /** The pool being drained after one more call: autoscaling off first, if it is on. */
  function Drained(p: Pool): Pool {
    if p.autoscaling then p.(autoscaling := false) else p.(size := 0)
  }

  /** With Nodes attached, a round turns the target's autoscaling off or brings it to zero, and does nothing else. */
  lemma DrainRound(w: World, s: Step)
    requires WellFormed(w) && !Stuck(w) && Quiet(w).Nodes() > 0 && TakesEffect(s)
    ensures var target := Target(w.pools, w.effective);
            var p := Quiet(w).pools.At(target);
            && Holds(p) && Quiet(w).Nodes() == Quiet(w).NodesOf(target)
            && Round(w, s) == Quiet(w).(pools := Quiet(w).pools.With(target, Some(Drained(p.value))))
  {
    var target := Target(w.pools, w.effective);
    QuietKeepsStuck(w);
    assert Quiet(w).Plan(true) == Mutate(w.regional, target, Quiet(w).pools.At(target).value, false);
  }

  lemma RoundStep(w: World, s: Step, n: nat)
    requires WellFormed(w) && !Stuck(w) && Work(w) <= n + 1 && TakesEffect(s)
    ensures WellFormed(Round(w, s)) && !Stuck(Round(w, s)) && Work(Round(w, s)) <= n
  {
    QuietKeepsStuck(w);
    QuietKeepsWork(w);
    QuietIsReady(w, s);
    AnyStep(Quiet(w), s);
  }

  predicate AllTakeEffect(calls: seq<Step>) {
    forall i :: 0 <= i < |calls| ==> TakesEffect(calls[i])
  }

  lemma {:induction false} RoundsFinish(w: World, calls: seq<Step>, n: nat)
    requires WellFormed(w) && !Stuck(w) && AllTakeEffect(calls) && Work(w) <= n + |calls|
    ensures WellFormed(Rounds(w, calls)) && !Stuck(Rounds(w, calls)) && Work(Rounds(w, calls)) <= n
  {
    if calls != [] {
      var before := calls[..|calls| - 1];
      RoundsFinish(w, before, n + 1);
      RoundStep(Rounds(w, before), calls[|calls| - 1], n);
    }
  }

  lemma {:induction false} RoundsStayStuck(w: World, calls: seq<Step>)
    requires WellFormed(w) && Stuck(w) && AllTakeEffect(calls)
    ensures WellFormed(Rounds(w, calls)) && Stuck(Rounds(w, calls))
  {
    if calls != [] {
      var before := calls[..|calls| - 1];
      RoundsStayStuck(w, before);
      QuietKeepsStuck(Rounds(w, before));
      StuckStays(Quiet(Rounds(w, before)), calls[|calls| - 1]);
    }
  }

  lemma StuckIsNotGone(w: World)
    requires Stuck(w)
    ensures !ReportsGone(w)
  {
    QuietEnd(w);
  }

  /**
   Zonal or regional, four rounds or more complete the deletion exactly from the
   states in which no Node is held by the pool that is not being drained.
   */
  lemma DeletionCompletesIffNotStuck(w: World, calls: seq<Step>)
    requires WellFormed(w) && AllTakeEffect(calls)
    ensures Stuck(w) ==> !ReportsGone(Rounds(w, calls))
    ensures |calls| >= 4 ==> (ReportsGone(Rounds(w, calls)) <==> !Stuck(w))
  {
    if Stuck(w) {
      RoundsStayStuck(w, calls);
      StuckIsNotGone(Rounds(w, calls));
    } else if |calls| >= 4 {
      RoundsFinish(w, calls, 0);
      QuietEnd(Rounds(w, calls));
    }
  }

  // ---- what a reconcile does, told from outside ----

  /** The pool named by the effective class. */
  function Named(w: World): Slot {
    if w.effective == Reliable then OnDemand else Spot
  }

  /** The state is stuck exactly when the named pool still exists and the other one holds a Node. */
  lemma StuckExactly(w: World)
    ensures Stuck(w) <==>
            w.pools.At(Named(w)) != None && w.NodesOf(Other(Named(w))) > 0 && Holds(w.pools.At(Other(Named(w))))
  {
  }

  /** Nodes are drained through the named pool, or through the other one once that is gone. */
  lemma DrainsExactly(w: World)
    requires w.Nodes() > 0
    ensures var slot := if w.pools.At(Named(w)) != None then Named(w) else Other(Named(w));
            w.Plan(true) == if w.pools.At(slot) == None then Report(Stopping)
            else if w.regional && w.pools.At(slot).value.autoscaling then SetAutoscaling(slot, false)
            else SetSize(slot, 0)
  {
  }

  /** With no Node left, Spot goes first; a pool that is not Kyber's, or of the wrong class, is refused. */
  lemma DeletesExactly(w: World, slot: Slot)
    requires w.Nodes() == 0
    ensures w.Plan(true) == Delete(slot)
       <==> && w.pools.At(slot) != None && (slot == OnDemand ==> w.pools.spot == None)
            && w.pools.At(slot).value.owned && w.pools.At(slot).value.spot == (slot == Spot)
    ensures (w.Plan(true) == Report(Failed)
             <==> exists slot :: && w.pools.At(slot) != None && (slot == OnDemand ==> w.pools.spot == None)
                                 && !(w.pools.At(slot).value.owned && w.pools.At(slot).value.spot == (slot == Spot)))
  {
    if w.pools.spot != None {
      assert w.pools.At(Spot) == w.pools.spot;
    } else if w.pools.reliable != None {
      assert w.pools.At(OnDemand) == w.pools.reliable;
    }
  }

  /**
   The capacity is reported gone exactly when no Node is observed and neither pool is left;
   unobserved, nothing is done.
   */
  lemma GoneExactly(w: World, observed: bool)
    ensures w.Plan(observed) == Report(Gone) <==> observed && w.Nodes() == 0 && w.pools.Empty()
    ensures w.Plan(false) == Report(Stopping)
  {
  }

  /** A call fails on errors that are no conflict, and not the absence of what is deleted. */
  lemma FailsExactly(w: World, observed: bool, error: CallError)
    ensures var plan := w.Plan(observed);
            Reply(plan, error)
            == if plan.Report? then Ok(plan.answer)
            else if error == OtherError || (error == NotFound && !plan.Delete?) then Err(error)
            else Ok(Stopping)
  {
  }

  /** Growing turns a regional pool's autoscaling on and sets a zonal pool to one. */
  lemma GrowsExactly(regional: bool, slot: Slot, p: Pool)
    ensures Mutate(regional, slot, p, true) == if regional then SetAutoscaling(slot, true) else SetSize(slot, 1)
  {
  }

  /** A Node held by the reliable pool of a Machine that is said to run on Spot: a well-formed state that is stuck. */
  lemma StuckIsPossible(regional: bool)
    ensures var w := World(regional, Pools(Some(Pool(false, 0, true, true)), Some(Pool(false, 1, true, false))), 0, 1,
                           CostOptimized);
            WellFormed(w) && Stuck(w)
  {
  }

  /** In particular whenever every Node belongs to the pool of the effective class. */
  lemma NodesOfEffectiveClassNeverStuck(w: World)
    requires w.effective == Reliable ==> w.spotNodes == 0
    requires w.effective != Reliable ==> w.reliableNodes == 0
    ensures !Stuck(w)
  {
  }
}
