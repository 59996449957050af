/**
 The two node groups behind one cost-optimized Machine, and what one reconcile
 decides to do with them. A reconcile either reports, or asks the cloud for
 exactly one change; `Decide` is that decision and `Execute` its effect.
 */
module EksPair {
  import opened Prelude
  import opened Cloud

  // ---- vocabulary of the provider boundary ----

  datatype Intent = Online | Offline | Deleted

  /** An opaque retry request; None is the empty token. */
  type Token = Option<nat>

  datatype Availability = Pending | Available | Recovering | Stopped | Gone | Failed

  datatype Reason =
    | Ready | Provisioning | Interrupted | Repairing | Stopping | StoppedReason | DeletedReason | ProviderError

  datatype FallbackNote = NoNote | FallbackActive | UnavailableForThreshold | RetryUnavailable

  /** The fields an observation carries back into the next desired Machine; None is the zero time. */
  datatype Stored = Stored(
    fallbackSince: Option<Time>,
    unavailableSince: Option<Time>,
    retryObserved: Token,
    retrySince: Option<Time>)

  datatype Desired = Desired(
    intent: Intent,
    request: Token,
    stored: Stored,
    attachmentObserved: bool,
    attachedNodes: nat)
  {
    predicate RetryPending() {
      request != None && request != stored.retryObserved
    }

    predicate NodeSeen() {
      attachmentObserved && attachedNodes > 0
    }
  }

  datatype Observation = Observation(
    state: Availability, reason: Reason, effective: Class, note: FallbackNote, stored: Stored)

  // ---- the cloud side ----

  datatype GroupStatus = Active | NotActive

  datatype Group =
    | Absent
    | Present(desiredSize: Option<int>, status: GroupStatus, owned: bool, rightClass: bool)

  datatype Pair = Pair(spot: Group, reliable: Group) {
    function At(slot: Slot): Group {
      if slot == Spot then spot else reliable
    }

    function With(slot: Slot, g: Group): Pair {
      if slot == Spot then this.(spot := g) else this.(reliable := g)
    }
  }

  function GroupSize(g: Group): int {
    if g.Absent? || g.desiredSize == None then -1 else g.desiredSize.value
  }

  // ---- one reconcile ----

  datatype Plan =
    | Report(obs: Observation)
    | Create(slot: Slot, size: int, obs: Observation)
    | Resize(slot: Slot, size: int, obs: Observation)
    | Delete(slot: Slot, obs: Observation)

  function PairObservation(d: Desired, state: Availability, reason: Reason, effective: Class): Observation {
    Observation(state, reason, effective, if d.stored.fallbackSince != None then FallbackActive else NoNote, d.stored)
  }

  function FailedPair(d: Desired): Observation {
    PairObservation(d, Failed, ProviderError, Unnamed)
  }

  function ResizeTo(d: Desired, slot: Slot, size: int, effective: Class): Plan {
    Resize(slot, size, PairObservation(d, Recovering, Repairing, effective))
  }

  function Elapsed(since: Option<Time>, now: Time, threshold: Time): bool {
    since != None && now - since.value >= threshold
  }

  function Decide(d: Desired, p: Pair, now: Time, threshold: Time): Plan {
    if d.intent == Deleted then DecideDeleted(d, p)
    else if p.spot.Absent? then Create(Spot, 1, PairObservation(d, Pending, Provisioning, CostOptimized))
    else if p.reliable.Absent? then Create(OnDemand, 0, PairObservation(d, Pending, Provisioning, CostOptimized))
    else if !(p.spot.owned && p.spot.rightClass && p.reliable.owned && p.reliable.rightClass) then Report(FailedPair(d))
    else if d.intent == Offline then DecideOffline(d, p)
    else if d.RetryPending() then DecideRetry(d, p, now, threshold)
    else DecideOnline(d, p, now, threshold)
  }

  function DecideDeleted(d: Desired, p: Pair): Plan {
    if p.spot.Present? then DecideRemoval(d, Spot, p.spot)
    else if p.reliable.Present? then DecideRemoval(d, OnDemand, p.reliable)
    else Report(Observation(Gone, DeletedReason, Unnamed, NoNote, Stored(None, None, None, None)))
  }

  function DecideRemoval(d: Desired, slot: Slot, g: Group): Plan
    requires g.Present?
  {
    if !g.owned then Report(FailedPair(d))
    else if GroupSize(g) != 0 then ResizeTo(d, slot, 0, Unnamed)
    else if !d.attachmentObserved || d.attachedNodes > 0 then Report(PairObservation(d, Recovering, Stopping, Unnamed))
    else Delete(slot, PairObservation(d, Recovering, Stopping, Unnamed))
  }

  function DecideOffline(d: Desired, p: Pair): Plan {
    if GroupSize(p.spot) != 0 then ResizeTo(d, Spot, 0, CostOptimized)
    else if GroupSize(p.reliable) != 0 then ResizeTo(d, OnDemand, 0, Reliable)
    else if d.attachmentObserved &&
            d.attachedNodes == 0 then Report(PairObservation(d, Stopped, StoppedReason, CostOptimized))
    else Report(PairObservation(d, Recovering, Stopping, CostOptimized))
  }

  /** A manual retry: reliable leaves, Spot is tried for one threshold, then the steps are undone in reverse. */
  function DecideRetry(d: Desired, p: Pair, now: Time, threshold: Time): Plan {
    if d.stored.retrySince == None then
      var o := PairObservation(d, Available, Ready, Reliable);
      Report(o.(stored := d.stored.(retrySince := Some(now))))
    else if Elapsed(d.stored.retrySince, now, threshold) then
      if GroupSize(p.spot) != 0 then ResizeTo(d, Spot, 0, Reliable)
      else if GroupSize(p.reliable) == 1 then
        var ready := d.NodeSeen() && p.reliable.Present? && p.reliable.status == Active;
        Report(Observation(
                 if ready then Available else Recovering, if ready then Ready
                 else Repairing, Reliable, RetryUnavailable,
                 d.stored.(retryObserved := d.request, retrySince := None)))
      else if d.NodeSeen() then Report(PairObservation(d, Recovering, Repairing, Reliable))
      else ResizeTo(d, OnDemand, 1, Reliable)
    else if GroupSize(p.reliable) != 0 then ResizeTo(d, OnDemand, 0, Reliable)
    else if GroupSize(p.spot) == 1 && d.NodeSeen() && p.spot.Present? && p.spot.status == Active then
      Report(Observation(Available, Ready, CostOptimized, NoNote, Stored(None, None, d.request, None)))
    else if d.NodeSeen() then Report(PairObservation(d, Recovering, Repairing, Reliable))
    else if GroupSize(p.spot) != 1 then ResizeTo(d, Spot, 1, Reliable)
    else Report(PairObservation(d, Recovering, Repairing, Reliable))
  }

  /** Steady operation on Spot, and the automatic fallback to reliable capacity. */
  function DecideOnline(d: Desired, p: Pair, now: Time, threshold: Time): Plan {
    if GroupSize(p.reliable) == 1 then
      var ready := d.NodeSeen() && p.reliable.Present? && p.reliable.status == Active;
      Report(Observation(
               if ready then Available else Recovering, if ready then Ready
               else Repairing, Reliable, UnavailableForThreshold,
               if d.stored.fallbackSince == None then d.stored.(fallbackSince := Some(now)) else d.stored))
    else if d.stored.fallbackSince != None then
      if d.NodeSeen() then
        Report(Observation(Recovering, Repairing, CostOptimized, UnavailableForThreshold, d.stored))
      else ResizeTo(d, OnDemand, 1, Reliable)
    else if d.NodeSeen() && p.spot.Present? && p.spot.status == Active then
      Report(Observation(Available, Ready, CostOptimized, NoNote, Stored(None, None, d.stored.retryObserved, None)))
    else
      var since := if d.stored.unavailableSince == None then now else d.stored.unavailableSince.value;
      var waiting := d.stored.(unavailableSince := Some(since));
      if now - since < threshold then
        Report(Observation(Recovering, Interrupted, CostOptimized, NoNote, waiting))
      else if GroupSize(p.spot) != 0 then
        Resize(Spot, 0, Observation(Recovering, Repairing, CostOptimized, UnavailableForThreshold,
                                    waiting.(fallbackSince := Some(now))))
      else if d.NodeSeen() then Report(Observation(Recovering, Repairing, CostOptimized, NoNote, waiting))
      else if GroupSize(p.reliable) != 1 then ResizeTo(d, OnDemand, 1, Reliable)
      else Report(Observation(Recovering, Repairing, Reliable, UnavailableForThreshold,
                              waiting.(fallbackSince := Some(now))))
  }

  // ---- effect of a plan on the cloud ----

  function Created(size: int): Group {
    Present(Some(size), NotActive, true, true)
  }

  function Resized(g: Group, size: int): Group {
    if g.Present? then g.(desiredSize := Some(size)) else g
  }

  /** The groups after the plan's one cloud call. */
  function Effect(plan: Plan, p: Pair, oc: Outcome): Pair {
    if plan.Report? || !oc.applied then p
    else match plan
         case Create(slot, size, _) => if p.At(slot).Absent? then p.With(slot, Created(size)) else p
         case Resize(slot, size, _) => p.With(slot, Resized(p.At(slot), size))
         case Delete(slot, _) => p.With(slot, Absent)
         case Report(_) => p
  }

  /** Whether the answer of the plan's call is one the adapter swallows. */
  function Swallowed(plan: Plan, error: CallError): bool {
    match plan
    case Report(_) => true
    case Create(_, _, _) => error == NoError || error == Conflict
    case Resize(_, _, _) => error == NoError || error == Conflict
    case Delete(_, _) => error == NoError || error == NotFound || error == Conflict
  }

  /** What the adapter hands to the controller. */
  function Answer(plan: Plan, error: CallError): Result<Observation, CallError> {
    if Swallowed(plan, error) then Ok(plan.obs) else Err(error)
  }
}
